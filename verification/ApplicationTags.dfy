/** Untagged atomic elements, by the numbers of section 20.2.1.4: null is 0, boolean 1, unsigned 2,
    integer 3, real 4, double 5, octet string 6, character string 7, bit string 8, enumerated 9,
    date 10, time 11 and object identifier 12; 13 to 15 are reserved. */
module ApplicationTags {
  import opened Apdus
  import opened Schemas

  /** What is sent for an untagged atomic value. */
  function Carrier(kind: nat, data: Bytes): Tag {
    Tag(APPLICATION, kind, data)
  }

  function Carriers(kinds: seq<nat>, datas: seq<Bytes>): seq<Tag>
    requires |kinds| == |datas|
  {
    seq(|kinds|, i requires 0 <= i < |kinds| => Carrier(kinds[i], datas[i]))
  }

  /** A required untagged atomic element for each kind, and a present field for each value. */
  function Elements(kinds: seq<nat>): seq<Element> {
    seq(|kinds|, i requires 0 <= i < |kinds| => Element(false, Atomic(kinds[i], None)))
  }

  function Fields(datas: seq<Bytes>): seq<Option<Value>> {
    seq(|datas|, i requires 0 <= i < |datas| => Some(AtomicValue(datas[i])))
  }

  function Alternatives(kinds: seq<nat>): seq<Schema> {
    seq(|kinds|, i requires 0 <= i < |kinds| => Atomic(kinds[i], None))
  }

  /** One element, looking at an application tag. */
  lemma OneElement(e: Element, number: nat, data: Bytes, rest: seq<Tag>)
    requires e.schema.Atomic? && e.schema.context.None? && number <= 12
    ensures var tags := [Carrier(number, data)] + rest;
      var d := DecodeElement(e, tags, Some(tags[0]));
      if e.schema.kind == number then d == Decoded(Ok(Found(Some(AtomicValue(data)), Peek(rest))), rest)
      else if e.schema.kind == 5 && number == 4 then d.result.Err?
      else d == if e.optional then Decoded(Ok(Found(None, Some(tags[0]))), tags) else Decoded(Err(AttributeError), tags)
  {
    var tags := [Carrier(number, data)] + rest;
    assert tags[1..] == rest;
    assert Decode(e.schema, tags) == DecodeAtomic(e.schema.kind, None, tags);
  }

  lemma ElementsStep(e: Element, later: seq<Element>, tags: seq<Tag>, look: Option<Tag>, value: Option<Value>,
                     left: seq<Tag>, next: Option<Tag>)
    requires DecodeElement(e, tags, look) == Decoded(Ok(Found(value, next)), left)
    ensures var more := DecodeElements(later, left, next);
      DecodeElements([e] + later, tags, look)
      == if more.result.Err? then more
         else Decoded(Ok(Found([value] + more.result.value.value, more.result.value.look)), more.rest)
  {
    assert ([e] + later)[1..] == later;
  }

  lemma LastElement(e: Element, tags: seq<Tag>, look: Option<Tag>, value: Value, left: seq<Tag>)
    requires DecodeElement(e, tags, look) == Decoded(Ok(Found(Some(value), Peek(left))), left)
    ensures DecodeElements([e], tags, look) == Decoded(Ok(Found([Some(value)], Peek(left))), left)
  {
    var none: seq<Option<Value>> := [];
    assert [e] == [e] + [];
    assert DecodeElements([], left, Peek(left)) == Decoded(Ok(Found(none, Peek(left))), left);
    ElementsStep(e, [], tags, look, Some(value), left, Peek(left));
    assert [Some(value)] + none == [Some(value)];
  }

  // ----- sequences of required elements

  lemma {:induction false} ElementsEncode(kinds: seq<nat>, datas: seq<Bytes>)
    requires |kinds| == |datas|
    ensures CompleteFields(Elements(kinds), Fields(datas))
    ensures EncodeFields(Elements(kinds), Fields(datas)) == Carriers(kinds, datas)
    decreases |kinds|
  {
    if kinds != [] {
      ElementsEncode(kinds[1..], datas[1..]);
      assert EncodeField(Elements(kinds)[0], Fields(datas)[0]) == [Carrier(kinds[0], datas[0])] by {
        assert Encode(Atomic(kinds[0], None), AtomicValue(datas[0])) == [Carrier(kinds[0], datas[0])];
      }
      assert Elements(kinds)[1..] == Elements(kinds[1..]) && Fields(datas)[1..] == Fields(datas[1..]);
      assert Carriers(kinds, datas) == [Carrier(kinds[0], datas[0])] + Carriers(kinds[1..], datas[1..]);
    }
  }

  lemma {:induction false} ElementsDecode(kinds: seq<nat>, datas: seq<Bytes>, rest: seq<Tag>)
    requires |kinds| == |datas| && (forall i :: 0 <= i < |kinds| ==> kinds[i] <= 12)
    ensures var tags := Carriers(kinds, datas) + rest;
      var d := DecodeElements(Elements(kinds), tags, Peek(tags));
      d.result.Ok? && d.result.value.value == Fields(datas) && d.result.value.look == Peek(rest) && d.rest == rest
    decreases |kinds|
  {
    var tags := Carriers(kinds, datas) + rest;
    if kinds == [] {
      assert tags == rest;
    } else {
      var later := Carriers(kinds[1..], datas[1..]) + rest;
      assert tags == [Carrier(kinds[0], datas[0])] + later;
      var e := Element(false, Atomic(kinds[0], None));
      OneElement(e, kinds[0], datas[0], later);
      assert Elements(kinds) == [e] + Elements(kinds[1..]);
      ElementsStep(e, Elements(kinds[1..]), tags, Peek(tags), Some(AtomicValue(datas[0])), later, Peek(later));
      ElementsDecode(kinds[1..], datas[1..], rest);
      assert Fields(datas) == [Some(AtomicValue(datas[0]))] + Fields(datas[1..]);
    }
  }

  /** Every sequence of required untagged atomics comes back, whatever its values and whatever
      follows, in brackets or not. */
  lemma AtomicsRoundTrip(context: Option<nat>, kinds: seq<nat>, datas: seq<Bytes>, rest: seq<Tag>)
    requires |kinds| == |datas| && forall i :: 0 <= i < |kinds| ==> kinds[i] <= 12
    ensures var s, v := Sequence(context, Elements(kinds)), SequenceValue(Fields(datas));
      && Complete(s, v)
      && Encode(s, v) == (match context
                          case None => Carriers(kinds, datas)
                          case Some(n) => [Tag(OPENING, n, [])] + Carriers(kinds, datas) + [Tag(CLOSING, n, [])])
      && Decode(s, Encode(s, v) + rest) == Decoded(Ok(v), rest)
  {
    ElementsEncode(kinds, datas);
    if context.None? {
      ElementsDecode(kinds, datas, rest);
    } else {
      var close := [Tag(CLOSING, context.value, [])];
      ElementsDecode(kinds, datas, close + rest);
      assert ([Tag(OPENING, context.value, [])] + Carriers(kinds, datas) + close + rest)[1..]
          == Carriers(kinds, datas) + (close + rest);
    }
  }

  /** DateTime (bacpypes3/basetypes.py): a date and a time. */
  lemma DateTimeRoundTrip(date: Bytes, time: Bytes, rest: seq<Tag>)
    ensures Decode(Sequence(None, [Element(false, Atomic(10, None)), Element(false, Atomic(11, None))]),
                   [Tag(APPLICATION, 10, date), Tag(APPLICATION, 11, time)] + rest)
         == Decoded(Ok(SequenceValue([Some(AtomicValue(date)), Some(AtomicValue(time))])), rest)
  {
    AtomicsRoundTrip(None, [10, 11], [date, time], rest);
    assert Elements([10, 11]) == [Element(false, Atomic(10, None)), Element(false, Atomic(11, None))];
    assert Fields([date, time]) == [Some(AtomicValue(date)), Some(AtomicValue(time))];
    assert Carriers([10, 11], [date, time]) == [Tag(APPLICATION, 10, date), Tag(APPLICATION, 11, time)];
  }

  /** Before a reserved number every atomic element, required or not, tagged or not, raises a
      TypeError, and beyond 15 an IndexError; no decoder recovers from either. */
  lemma ReservedRaises(e: Element, later: seq<Element>, number: nat, data: Bytes, rest: seq<Tag>)
    requires e.schema.Atomic? && 13 <= number
    ensures var tags := [Tag(APPLICATION, number, data)] + rest;
      Decode(Sequence(None, [e] + later), tags) == Decoded(Err(if number <= 15 then TypeError else IndexError), tags)
  {
    var tags, raised := [Tag(APPLICATION, number, data)] + rest, if number <= 15 then TypeError else IndexError;
    assert ([e] + later)[0] == e;
    assert DecodeElement(e, tags, Peek(tags)) == Decoded(Err(raised), tags);
    assert DecodeElements([e] + later, tags, Peek(tags)) == Decoded(Err(raised), tags);
  }

  lemma ReservedRaisesInChoice(s: Schema, later: seq<Schema>, number: nat, data: Bytes, rest: seq<Tag>)
    requires s.Atomic? && 13 <= number
    ensures var tags := [Tag(APPLICATION, number, data)] + rest;
      Decode(Choice(None, [s] + later), tags) == Decoded(Err(if number <= 15 then TypeError else IndexError), tags)
  {
    var tags, raised := [Tag(APPLICATION, number, data)] + rest, if number <= 15 then TypeError else IndexError;
    assert ([s] + later)[0] == s;
    assert DecodeAlternative(s, tags) == Decoded(Err(raised), tags);
    assert DecodeAlternatives([s] + later, 0, tags) == Decoded(Err(raised), tags);
  }

  // ----- a choice of them

  /** The tag of one kind is taken by an element of another. */
  predicate TakenFor(kind: nat, number: nat) {
    kind == number || (kind == 5 && number == 4)
  }

  lemma OneAlternative(kind: nat, number: nat, data: Bytes, rest: seq<Tag>)
    requires number <= 12
    ensures var tags := [Carrier(number, data)] + rest;
      var d := DecodeAlternative(Atomic(kind, None), tags);
      if kind == number then d == Decoded(Ok(Found(Some(AtomicValue(data)), Peek(rest))), rest)
      else if kind == 5 && number == 4 then d.result.Err?
      else d == Decoded(Ok(Found(None, Some(tags[0]))), tags)
  {
    var tags := [Carrier(number, data)] + rest;
    assert tags[1..] == rest;
    assert Decode(Atomic(kind, None), tags) == DecodeAtomic(kind, None, tags);
  }

  lemma AlternativesStep(kinds: seq<nat>, base: nat, number: nat, data: Bytes, rest: seq<Tag>)
    requires kinds != [] && number <= 12
    ensures var tags := [Carrier(number, data)] + rest;
      var d := DecodeAlternatives(Alternatives(kinds), base, tags);
      if kinds[0] == number then d == Decoded(Ok(Found(ChoiceValue(base, AtomicValue(data)), Peek(rest))), rest)
      else if TakenFor(kinds[0], number) then d.result.Err?
      else d == DecodeAlternatives(Alternatives(kinds[1..]), base + 1, tags)
  {
    OneAlternative(kinds[0], number, data, rest);
    assert Alternatives(kinds)[1..] == Alternatives(kinds[1..]);
  }

  lemma {:induction false} AlternativesPassed(kinds: seq<nat>, which: nat, base: nat, data: Bytes, rest: seq<Tag>)
    requires which < |kinds| && kinds[which] <= 12
    requires forall j :: 0 <= j < which ==> !TakenFor(kinds[j], kinds[which])
    ensures DecodeAlternatives(Alternatives(kinds), base, [Carrier(kinds[which], data)] + rest)
         == Decoded(Ok(Found(ChoiceValue(base + which, AtomicValue(data)), Peek(rest))), rest)
    decreases which
  {
    AlternativesStep(kinds, base, kinds[which], data, rest);
    if which != 0 {
      assert !TakenFor(kinds[0], kinds[which]);
      AlternativesPassed(kinds[1..], which - 1, base + 1, data, rest);
    }
  }

  lemma {:induction false} AlternativesStopped(kinds: seq<nat>, j: nat, base: nat, number: nat, data: Bytes,
                                              rest: seq<Tag>)
    requires j < |kinds| && number <= 12 && TakenFor(kinds[j], number)
    ensures var d := DecodeAlternatives(Alternatives(kinds), base, [Carrier(number, data)] + rest);
      d.result.Ok? ==> d.result.value.value.ChoiceValue? && d.result.value.value.which <= base + j
    decreases j
  {
    AlternativesStep(kinds, base, number, data, rest);
    if !TakenFor(kinds[0], number) { AlternativesStopped(kinds[1..], j - 1, base + 1, number, data, rest); }
  }

  /** A choice of untagged atomics comes back at each alternative, whatever follows, if and only if
      no earlier alternative is of the same kind, and no double is before a real. */
  lemma AtomicChoiceRoundTrip(kinds: seq<nat>, which: nat, data: Bytes, rest: seq<Tag>)
    requires which < |kinds| && kinds[which] <= 12
    ensures Encode(Choice(None, Alternatives(kinds)), ChoiceValue(which, AtomicValue(data)))
         == [Tag(APPLICATION, kinds[which], data)]
    ensures Decode(Choice(None, Alternatives(kinds)), [Tag(APPLICATION, kinds[which], data)] + rest)
         == Decoded(Ok(ChoiceValue(which, AtomicValue(data))), rest)
       <==> forall j :: 0 <= j < which ==> kinds[j] != kinds[which] && !(kinds[j] == 5 && kinds[which] == 4)
  {
    if forall j :: 0 <= j < which ==> !TakenFor(kinds[j], kinds[which]) {
      AlternativesPassed(kinds, which, 0, data, rest);
    } else {
      var j :| 0 <= j < which && TakenFor(kinds[j], kinds[which]);
      AlternativesStopped(kinds, j, 0, kinds[which], data, rest);
    }
  }

  // ----- an optional one before another

  /** An optional untagged atomic that is absent is skipped before a value of another kind, and
      only then, except for a double before a real. */
  lemma OptionalBeforeRequired(absent: nat, kind: nat, data: Bytes, rest: seq<Tag>)
    requires absent <= 12 && kind <= 12
    ensures var s := Sequence(None, [Element(true, Atomic(absent, None)), Element(false, Atomic(kind, None))]);
      Decode(s, [Tag(APPLICATION, kind, data)] + rest)
      == Decoded(Ok(SequenceValue([None, Some(AtomicValue(data))])), rest)
      <==> absent != kind && !(absent == 5 && kind == 4)
  {
    var tags := [Tag(APPLICATION, kind, data)] + rest;
    var first, second := Element(true, Atomic(absent, None)), Element(false, Atomic(kind, None));
    assert [first, second] == [first] + [second] && [second] == [second] + [];
    OneElement(first, kind, data, rest);
    OneElement(second, kind, data, rest);
    if absent == kind {
      ElementsStep(first, [second], tags, Peek(tags), Some(AtomicValue(data)), rest, Peek(rest));
      var d := DecodeElements([first, second], tags, Peek(tags));
      assert d.result.Ok? ==> d.result.value.value[0] == Some(AtomicValue(data));
    } else if !(absent == 5 && kind == 4) {
      ElementsStep(first, [second], tags, Peek(tags), None, tags, Peek(tags));
      LastElement(second, tags, Peek(tags), AtomicValue(data), rest);
      assert [None] + [Some(AtomicValue(data))] == [None, Some(AtomicValue(data))];
    }
  }

  /** And when it is present it is taken. */
  lemma OptionalPresent(kind: nat, other: nat, data: Bytes, more: Bytes, rest: seq<Tag>)
    requires kind <= 12 && other <= 12
    ensures Decode(Sequence(None, [Element(true, Atomic(kind, None)), Element(false, Atomic(other, None))]),
                   [Tag(APPLICATION, kind, data), Tag(APPLICATION, other, more)] + rest)
         == Decoded(Ok(SequenceValue([Some(AtomicValue(data)), Some(AtomicValue(more))])), rest)
  {
    var later := [Tag(APPLICATION, other, more)] + rest;
    var tags := [Tag(APPLICATION, kind, data), Tag(APPLICATION, other, more)] + rest;
    var first, second := Element(true, Atomic(kind, None)), Element(false, Atomic(other, None));
    assert [first, second] == [first] + [second] && [second] == [second] + [];
    assert tags == [Carrier(kind, data)] + later;
    OneElement(first, kind, data, later);
    OneElement(second, other, more, rest);
    ElementsStep(first, [second], tags, Peek(tags), Some(AtomicValue(data)), later, Peek(later));
    LastElement(second, later, Peek(later), AtomicValue(more), rest);
    assert [Some(AtomicValue(data))] + [Some(AtomicValue(more))] == [Some(AtomicValue(data)), Some(AtomicValue(more))];
  }
}
