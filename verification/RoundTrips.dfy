/** When decoding gives back what was encoded: when the tag that comes next tells what to do
    with it, all along the value. In a deterministic schema it does, but for an absent choice or
    list. */
module RoundTrips {
  import opened Apdus
  import opened Schemas

  // ----- what the next tag tells

  /** The tag may be the first one of an encoding. */
  predicate Starts(s: Schema, t: Tag)
    decreases s, 0
  {
    match s
    case Atomic(kind, context) =>
      if context.None? then t.cls == APPLICATION && t.number == kind else t.cls == CONTEXT && t.number == context.value
    case Sequence(context, elements) =>
      if context.None? then StartsElements(elements, t) else Opens(context.value, Some(t))
    case Choice(context, alternatives) =>
      if context.None? then StartsAlternatives(alternatives, t) else Opens(context.value, Some(t))
    case ExtendedList(context, subtype) => if context.None? then Starts(subtype, t) else Opens(context.value, Some(t))
    case Any(context) => t.cls != CLOSING && (context.Some? ==> t.cls != APPLICATION && t.number == context.value)
  }

  predicate StartsElement(e: Element, t: Tag)
    decreases e, 0
  {
    Starts(e.schema, t)
  }

  /** Any of the elements may come first if those before it are optional. */
  predicate StartsElements(elements: seq<Element>, t: Tag)
    decreases elements, 0
  {
    elements != [] && (StartsElement(elements[0], t) || (elements[0].optional && StartsElements(elements[1..], t)))
  }

  predicate StartsAlternatives(alternatives: seq<Schema>, t: Tag)
    decreases alternatives, 0
  {
    alternatives != [] && (Starts(alternatives[0], t) || StartsAlternatives(alternatives[1..], t))
  }

  /** A sequence whose element is present takes the tag as its first. */
  predicate Takes(s: Schema, t: Tag) {
    if s.Choice? || s.ExtendedList? then t.cls != CLOSING
    else if t.cls == APPLICATION then s.Atomic? ==> !Reserved(t.number) && AppMatches(s.kind, t.number)
    else t.cls != CLOSING && s.context == Some(t.number)
  }

  /** A sequence whose optional element is absent leaves the tag alone. */
  predicate Skips(s: Schema, t: Tag) {
    if s.Choice? || s.ExtendedList? then false
    else if t.cls == APPLICATION then
      if s.Atomic? then !Reserved(t.number) && !AppMatches(s.kind, t.number) else s.context.Some?
    else if s.context.Some? then s.context.value != t.number
    else s.Atomic?
  }

  /** An element that is never skipped, whatever the tag. */
  predicate Blind(s: Schema) {
    s.Choice? || s.ExtendedList?
  }

  /** A choice tries the alternative on the tag. */
  predicate Tries(s: Schema, t: Tag) {
    if t.cls == APPLICATION then s.Atomic? ==> !Reserved(t.number) && AppMatches(s.kind, t.number)
    else t.cls != CLOSING && s.context == Some(t.number)
  }

  /** A choice passes the alternative over. */
  predicate Passes(s: Schema, t: Tag) {
    if t.cls == APPLICATION then
      if s.Atomic? then !Reserved(t.number) && !AppMatches(s.kind, t.number) else s.context.Some?
    else s.context != Some(t.number)
  }

  /** The decoder fails on the tag, and a decoder that works on a copy recovers from it. */
  predicate Refuses(s: Schema, t: Tag) {
    match s
    case Atomic(kind, context) =>
      && !(t.cls == APPLICATION && context.None? && t.number == kind)
      && !(t.cls == CONTEXT && context == Some(t.number))
    case Sequence(context, elements) =>
      if context.Some? then !Opens(context.value, Some(t))
      else t.cls != CLOSING && elements != [] && !elements[0].optional && Skips(elements[0].schema, t)
    case Choice(context, alternatives) =>
      if context.Some? then !Opens(context.value, Some(t))
      else t.cls == CLOSING || forall a :: a in alternatives ==> Passes(a, t)
    case ExtendedList(context, _) => context.Some? && !Opens(context.value, Some(t))
    case Any(context) => t.cls == CLOSING || (context.Some? && (t.cls == APPLICATION || t.number != context.value))
  }

  predicate AllOptional(elements: seq<Element>) {
    forall e :: e in elements ==> e.optional
  }

  // ----- values that can be told

  /** How deep a run of tags is in brackets after it; None when it has closed one too many. */
  function Depth(tags: seq<Tag>, lvl: nat): Option<nat>
    decreases |tags|
  {
    if tags == [] then Some(lvl)
    else if tags[0].cls == OPENING then Depth(tags[1..], lvl + 1)
    else if tags[0].cls != CLOSING then Depth(tags[1..], lvl)
    else if lvl == 0 then None
    else Depth(tags[1..], lvl - 1)
  }

  predicate Balanced(tags: seq<Tag>) {
    Depth(tags, 0) == Some(0)
  }

  /** One tag, or one pair of brackets with something balanced inside. */
  predicate IsGroup(tags: seq<Tag>) {
    if |tags| == 1 then tags[0].cls == APPLICATION || tags[0].cls == CONTEXT
    else
      && 2 <= |tags| && tags[0].cls == OPENING && Closes(tags[0].number, Some(tags[|tags| - 1]))
      && Balanced(tags[1..|tags| - 1])
  }

  /** A complete value in which whatever is present has at least one tag. */
  predicate Fits(s: Schema, v: Value)
    requires Complete(s, v)
    decreases s, 0
  {
    match s
    case Atomic(_, _) => true
    case Sequence(_, elements) => FitsFields(elements, v.fields)
    case Choice(_, alternatives) =>
      Fits(alternatives[v.which], v.value) && Encode(alternatives[v.which], v.value) != []
    case ExtendedList(_, subtype) => FitsItems(subtype, v.items)
    case Any(context) => IsGroup(v.tags) && Starts(s, v.tags[0])
  }

  predicate FitsField(e: Element, field: Option<Value>)
    requires CompleteField(e, field)
    decreases e, 0
  {
    field.Some? ==> Fits(e.schema, field.value) && Encode(e.schema, field.value) != []
  }

  predicate FitsFields(elements: seq<Element>, fields: seq<Option<Value>>)
    requires CompleteFields(elements, fields)
    decreases elements, 0
  {
    elements == [] || (FitsField(elements[0], fields[0]) && FitsFields(elements[1..], fields[1..]))
  }

  predicate FitsItems(subtype: Schema, items: seq<Value>)
    requires CompleteItems(subtype, items)
    decreases subtype, |items| + 1
  {
    items == [] ||
    (Fits(subtype, items[0]) && Encode(subtype, items[0]) != [] && FitsItems(subtype, items[1..]))
  }

  // ----- what has to be told along a value

  function After(context: Option<nat>, rest: seq<Tag>): seq<Tag> {
    if context.None? then rest else [Tag(CLOSING, context.value, [])] + rest
  }

  /** A choice comes to this alternative on the tag, and takes it. */
  predicate Reaches(alternatives: seq<Schema>, which: nat, t: Tag)
    requires which < |alternatives|
  {
    Tries(alternatives[which], t) && forall j :: 0 <= j < which ==> Passes(alternatives[j], t)
  }

  /** With the value's own tags and what follows it, every decision of the decoder is the right
      one: the next tag shows each present field, skips each absent one, singles out the chosen
      alternative, and ends each list. */
  predicate Told(s: Schema, v: Value, rest: seq<Tag>)
    requires Complete(s, v) && Fits(s, v)
    decreases s, 0
  {
    match s
    case Sequence(context, elements) => ToldFields(elements, v.fields, After(context, rest))
    case Choice(context, alternatives) =>
      var chosen := alternatives[v.which];
      && Told(chosen, v.value, After(context, rest))
      && Reaches(alternatives, v.which, Encode(chosen, v.value)[0])
      && (context.Some? ==> chosen.Atomic? || chosen.context.Some?)
    case ExtendedList(context, subtype) => ToldItems(subtype, v.items, After(context, rest))
    case _ => true
  }

  predicate ToldField(e: Element, field: Option<Value>, later: seq<Tag>)
    requires CompleteField(e, field) && FitsField(e, field)
    decreases e, 0
  {
    match field
    case None => Ends(Peek(later)) || Skips(e.schema, later[0])
    case Some(v) => Takes(e.schema, Encode(e.schema, v)[0]) && Told(e.schema, v, later)
  }

  predicate ToldFields(elements: seq<Element>, fields: seq<Option<Value>>, rest: seq<Tag>)
    requires CompleteFields(elements, fields) && FitsFields(elements, fields)
    decreases elements, 0
  {
    elements == [] ||
    (&& ToldField(elements[0], fields[0], EncodeFields(elements[1..], fields[1..]) + rest)
     && ToldFields(elements[1..], fields[1..], rest))
  }

  predicate ToldItems(subtype: Schema, items: seq<Value>, rest: seq<Tag>)
    requires CompleteItems(subtype, items) && FitsItems(subtype, items)
    decreases subtype, |items| + 1
  {
    if items == [] then Ends(Peek(rest)) || Refuses(subtype, rest[0])
    else Told(subtype, items[0], EncodeItems(subtype, items[1..]) + rest) && ToldItems(subtype, items[1..], rest)
  }

  // ----- the first tag of an encoding

  lemma {:induction false} EncodingStarts(s: Schema, v: Value)
    requires Complete(s, v) && Fits(s, v) && Encode(s, v) != []
    ensures Starts(s, Encode(s, v)[0])
    decreases s, 0
  {
    match s {
      case Sequence(context, elements) =>
        if context.None? { FieldsStart(elements, v.fields); }
      case Choice(context, alternatives) =>
        if context.None? {
          EncodingStarts(alternatives[v.which], v.value);
          AlternativeStarts(alternatives, v.which, Encode(alternatives[v.which], v.value)[0]);
        }
      case ExtendedList(context, subtype) =>
        if context.None? { EncodingStarts(subtype, v.items[0]); }
      case _ =>
    }
  }

  lemma {:induction false} FieldStarts(e: Element, field: Option<Value>)
    requires CompleteField(e, field) && FitsField(e, field) && field.Some?
    ensures StartsElement(e, Encode(e.schema, field.value)[0])
    decreases e, 0
  {
    EncodingStarts(e.schema, field.value);
  }

  lemma {:induction false} FieldsStart(elements: seq<Element>, fields: seq<Option<Value>>)
    requires CompleteFields(elements, fields) && FitsFields(elements, fields)
    ensures if EncodeFields(elements, fields) == [] then AllOptional(elements)
      else StartsElements(elements, EncodeFields(elements, fields)[0])
    decreases elements, 0
  {
    if elements != [] {
      FieldsStart(elements[1..], fields[1..]);
      if fields[0].Some? {
        FieldStarts(elements[0], fields[0]);
        var first := EncodeField(elements[0], fields[0]);
        assert EncodeFields(elements, fields) == first + EncodeFields(elements[1..], fields[1..]) && first != [];
      } else {
        assert EncodeFields(elements, fields) == EncodeFields(elements[1..], fields[1..]);
        assert elements == [elements[0]] + elements[1..];
      }
    }
  }

  lemma {:induction false} AlternativeStarts(alternatives: seq<Schema>, which: nat, t: Tag)
    requires which < |alternatives| && Starts(alternatives[which], t)
    ensures StartsAlternatives(alternatives, t)
    decreases |alternatives|
  {
    if which != 0 { AlternativeStarts(alternatives[1..], which - 1, t); }
  }

  // ----- the round trip

  /** Decoding the encoding of a value, with whatever follows it, gives the value back and leaves
      exactly what followed, for every schema and every value along which all is told. */
  lemma {:induction false} RoundTrip(s: Schema, v: Value, rest: seq<Tag>)
    requires Complete(s, v) && Fits(s, v) && Told(s, v, rest)
    ensures Decode(s, Encode(s, v) + rest) == Decoded(Ok(v), rest)
    decreases s, 0
  {
    match s {
      case Atomic(_, _) =>
      case Sequence(context, elements) => SequenceRoundTrip(s, v, rest);
      case Choice(context, alternatives) => ChoiceRoundTrip(s, v, rest);
      case ExtendedList(context, subtype) => ListRoundTrip(s, v, rest);
      case Any(_) => AnyRoundTrip(s, v, rest);
    }
  }

  /** The tags inside the brackets, if there are any, and what follows them. */
  lemma Unwrap(context: Option<nat>, inner: seq<Tag>, rest: seq<Tag>)
    ensures var tags := Wrap(context, inner) + rest;
      if context.None? then tags == inner + rest
      else
        && Opens(context.value, Peek(tags))
        && tags[1..] == inner + ([Tag(CLOSING, context.value, [])] + rest)
  {
    if context.Some? {
      assert Wrap(context, inner) + rest
          == [Tag(OPENING, context.value, [])] + (inner + ([Tag(CLOSING, context.value, [])] + rest));
    }
  }

  lemma {:induction false} SequenceRoundTrip(s: Schema, v: Value, rest: seq<Tag>)
    requires s.Sequence? && Complete(s, v) && Fits(s, v) && Told(s, v, rest)
    ensures Decode(s, Encode(s, v) + rest) == Decoded(Ok(v), rest)
    decreases s.elements, 2
  {
    Unwrap(s.context, EncodeFields(s.elements, v.fields), rest);
    ElementsRoundTrip(s.elements, v.fields, After(s.context, rest));
  }

  lemma {:induction false} ElementsRoundTrip(elements: seq<Element>, fields: seq<Option<Value>>, rest: seq<Tag>)
    requires CompleteFields(elements, fields) && FitsFields(elements, fields) && ToldFields(elements, fields, rest)
    ensures var tags := EncodeFields(elements, fields) + rest;
      DecodeElements(elements, tags, Peek(tags)) == Decoded(Ok(Found(fields, Peek(rest))), rest)
    decreases elements, 1
  {
    if elements == [] {
      assert EncodeFields(elements, fields) + rest == rest;
    } else {
      var later := EncodeFields(elements[1..], fields[1..]) + rest;
      var tags := EncodeFields(elements, fields) + rest;
      assert tags == EncodeField(elements[0], fields[0]) + later;
      ElementRoundTrip(elements[0], fields[0], later);
      ElementsRoundTrip(elements[1..], fields[1..], rest);
      JoinElements(elements, tags, fields, later, rest);
    }
  }

  lemma {:induction false} ElementRoundTrip(e: Element, field: Option<Value>, later: seq<Tag>)
    requires CompleteField(e, field) && FitsField(e, field) && ToldField(e, field, later)
    ensures var tags := EncodeField(e, field) + later;
      DecodeElement(e, tags, Peek(tags)) == Decoded(Ok(Found(field, Peek(later))), later)
    decreases e, 2
  {
    if field.None? {
      assert EncodeField(e, field) + later == later;
      if !Ends(Peek(later)) { SkippedElement(e, later); }
    } else {
      var inner := EncodeField(e, field);
      RoundTrip(e.schema, field.value, later);
      assert (inner + later)[0] == inner[0];
      TakenElement(e, inner + later);
    }
  }

  lemma {:induction false} JoinElements(elements: seq<Element>, tags: seq<Tag>, fields: seq<Option<Value>>,
                                        later: seq<Tag>, rest: seq<Tag>)
    requires elements != [] && fields != []
    requires DecodeElement(elements[0], tags, Peek(tags)) == Decoded(Ok(Found(fields[0], Peek(later))), later)
    requires DecodeElements(elements[1..], later, Peek(later)) == Decoded(Ok(Found(fields[1..], Peek(rest))), rest)
    ensures DecodeElements(elements, tags, Peek(tags)) == Decoded(Ok(Found(fields, Peek(rest))), rest)
  {
    assert fields == [fields[0]] + fields[1..];
  }

  /** An element that leaves the tag alone is found absent. */
  lemma SkippedElement(e: Element, tags: seq<Tag>)
    requires e.optional && tags != [] && tags[0].cls != CLOSING && Skips(e.schema, tags[0])
    ensures DecodeElement(e, tags, Peek(tags)) == Decoded(Ok(Found(None, Peek(tags))), tags)
  {
  }

  lemma TakenElement(e: Element, tags: seq<Tag>)
    requires tags != [] && Takes(e.schema, tags[0]) && Decode(e.schema, tags).result.Ok?
    ensures DecodeElement(e, tags, Peek(tags)) == Taken(Decode(e.schema, tags))
  {
  }

  lemma {:induction false} ChoiceRoundTrip(s: Schema, v: Value, rest: seq<Tag>)
    requires s.Choice? && Complete(s, v) && Fits(s, v) && Told(s, v, rest)
    ensures Decode(s, Encode(s, v) + rest) == Decoded(Ok(v), rest)
    decreases s.alternatives, 2
  {
    Unwrap(s.context, Encode(s.alternatives[v.which], v.value), rest);
    AlternativesRoundTrip(s.alternatives, 0, v.which, v.value, After(s.context, rest));
  }

  lemma {:induction false} AlternativesRoundTrip(alternatives: seq<Schema>, base: nat, which: nat, v: Value,
                                        rest: seq<Tag>)
    requires which < |alternatives| && Complete(alternatives[which], v) && Fits(alternatives[which], v)
    requires Encode(alternatives[which], v) != [] && Told(alternatives[which], v, rest)
    requires Reaches(alternatives, which, Encode(alternatives[which], v)[0])
    ensures var d := DecodeAlternatives(alternatives, base, Encode(alternatives[which], v) + rest);
      && d.result.Ok? && d.rest == rest && d.result.value.value == ChoiceValue(base + which, v)
      && (alternatives[which].Atomic? || alternatives[which].context.Some? ==> d.result.value.look == Peek(rest))
    decreases alternatives, 1
  {
    var inner := Encode(alternatives[which], v);
    var tags := inner + rest;
    assert tags[0] == inner[0];
    if which == 0 {
      RoundTrip(alternatives[0], v, rest);
      TriedAlternative(alternatives[0], tags);
    } else {
      PassedAlternative(alternatives[0], tags);
      LaterReaches(alternatives, which, inner[0]);
      AlternativesRoundTrip(alternatives[1..], base + 1, which - 1, v, rest);
    }
  }

  lemma LaterReaches(alternatives: seq<Schema>, which: nat, t: Tag)
    requires 0 < which < |alternatives| && Reaches(alternatives, which, t)
    ensures Reaches(alternatives[1..], which - 1, t) && Passes(alternatives[0], t)
  {
    assert forall j :: 0 <= j < which - 1 ==> alternatives[1..][j] == alternatives[j + 1];
  }

  lemma TriedAlternative(s: Schema, tags: seq<Tag>)
    requires tags != [] && Tries(s, tags[0]) && Decode(s, tags).result.Ok?
    ensures var d := DecodeAlternative(s, tags);
      var whole := Decode(s, tags);
      && tags[0].cls != CLOSING && d.result.Ok? && d.rest == whole.rest
      && d.result.value.value == Some(whole.result.value)
      && (s.Atomic? || s.context.Some? ==> d.result.value.look == Peek(d.rest))
  {
  }

  lemma PassedAlternative(s: Schema, tags: seq<Tag>)
    requires tags != [] && Passes(s, tags[0]) && tags[0].cls != CLOSING
    ensures DecodeAlternative(s, tags) == Decoded(Ok(Found(None, Some(tags[0]))), tags)
  {
  }

  /** No encoding starts with a closing tag. */
  lemma {:induction false} NotClosing(s: Schema, t: Tag)
    requires Starts(s, t)
    ensures t.cls != CLOSING
    decreases s, 0
  {
    if s.context.None? {
      match s {
        case Sequence(_, elements) => NoneClosing(elements, t);
        case Choice(_, alternatives) => NoAlternativeClosing(alternatives, t);
        case ExtendedList(_, subtype) => NotClosing(subtype, t);
        case _ =>
      }
    }
  }

  lemma {:induction false} NoneClosing(elements: seq<Element>, t: Tag)
    requires StartsElements(elements, t)
    ensures t.cls != CLOSING
    decreases elements, 0
  {
    if StartsElement(elements[0], t) { ElementNotClosing(elements[0], t); } else { NoneClosing(elements[1..], t); }
  }

  lemma {:induction false} ElementNotClosing(e: Element, t: Tag)
    requires StartsElement(e, t)
    ensures t.cls != CLOSING
    decreases e, 0
  {
    NotClosing(e.schema, t);
  }

  lemma {:induction false} NoAlternativeClosing(alternatives: seq<Schema>, t: Tag)
    requires StartsAlternatives(alternatives, t)
    ensures t.cls != CLOSING
    decreases alternatives, 0
  {
    if Starts(alternatives[0], t) { NotClosing(alternatives[0], t); }
        else { NoAlternativeClosing(alternatives[1..], t); }
  }

  lemma {:induction false} ListRoundTrip(s: Schema, v: Value, rest: seq<Tag>)
    requires s.ExtendedList? && Complete(s, v) && Fits(s, v) && Told(s, v, rest)
    ensures Decode(s, Encode(s, v) + rest) == Decoded(Ok(v), rest)
    decreases s.subtype, 3
  {
    Unwrap(s.context, EncodeItems(s.subtype, v.items), rest);
    ItemsRoundTrip(s.subtype, v.items, After(s.context, rest));
  }

  lemma {:induction false} ItemsRoundTrip(subtype: Schema, items: seq<Value>, rest: seq<Tag>)
    requires CompleteItems(subtype, items) && FitsItems(subtype, items) && ToldItems(subtype, items, rest)
    ensures DecodeItems(subtype, EncodeItems(subtype, items) + rest) == Decoded(Ok(items), rest)
    decreases subtype, 2, |items|
  {
    if items == [] {
      assert EncodeItems(subtype, items) + rest == rest;
      if !Ends(Peek(rest)) { RefusedIsCaught(subtype, rest); }
    } else {
      var later := EncodeItems(subtype, items[1..]) + rest;
      assert EncodeItems(subtype, items) + rest == Encode(subtype, items[0]) + later;
      ItemRoundTrip(subtype, items[0], later);
      ItemsRoundTrip(subtype, items[1..], rest);
      assert items == [items[0]] + items[1..];
    }
  }

  lemma {:induction false} ItemRoundTrip(subtype: Schema, item: Value, later: seq<Tag>)
    requires Complete(subtype, item) && Fits(subtype, item) && Encode(subtype, item) != [] && Told(subtype, item, later)
    ensures DecodeItem(subtype, Encode(subtype, item) + later) == Decoded(Ok(Some(item)), later)
    decreases subtype, 1
  {
    var first := Encode(subtype, item);
    EncodingStarts(subtype, item);
    NotClosing(subtype, first[0]);
    RoundTrip(subtype, item, later);
    assert (first + later)[0] == first[0] && |later| < |first + later|;
  }

  lemma RefusedIsCaught(s: Schema, tags: seq<Tag>)
    requires tags != [] && Refuses(s, tags[0])
    ensures Decode(s, tags).result.Err? && Caught(Decode(s, tags).result.error)
  {
    if s.Choice? && s.context.None? && tags[0].cls != CLOSING { AllPassed(s.alternatives, 0, tags); }
    if s.Sequence? && s.context.None? { RefusedElement(s.elements[0], tags); }
  }

  lemma RefusedElement(e: Element, tags: seq<Tag>)
    requires !e.optional && tags != [] && tags[0].cls != CLOSING && Skips(e.schema, tags[0])
    ensures DecodeElement(e, tags, Peek(tags)).result == Err(AttributeError)
  {
  }

  lemma {:induction false} AllPassed(alternatives: seq<Schema>, which: nat, tags: seq<Tag>)
    requires tags != [] && tags[0].cls != CLOSING && forall a :: a in alternatives ==> Passes(a, tags[0])
    ensures DecodeAlternatives(alternatives, which, tags) == Decoded(Err(AttributeError), tags)
    decreases |alternatives|
  {
    if alternatives != [] {
      assert alternatives[0] in alternatives;
      PassedAlternative(alternatives[0], tags);
      AllPassed(alternatives[1..], which + 1, tags);
    }
  }

  lemma {:induction false} AnyRoundTrip(s: Schema, v: Value, rest: seq<Tag>)
    requires s.Any? && Complete(s, v) && Fits(s, v)
    ensures Decode(s, Encode(s, v) + rest) == Decoded(Ok(v), rest)
  {
    var tags := v.tags + rest;
    assert tags[0] == v.tags[0];
    if |v.tags| == 1 {
      assert tags[1..] == rest && [tags[0]] == v.tags;
    } else {
      GroupIsFound(v.tags, rest);
    }
  }

  /** On balanced input the first bracketed group is what is taken, and nothing else. */
  lemma GroupIsFound(group: seq<Tag>, rest: seq<Tag>)
    requires IsGroup(group) && 2 <= |group|
    ensures DecodeGroup(group + rest) == Decoded(Ok(AnyValue(group)), rest)
  {
    var inner := group[1..|group| - 1];
    assert inner + [group[|group| - 1]] + rest == (group + rest)[1..];
    ScanSkipsBalanced(group + rest, 1, 0, group[0].number, inner);
    assert (group + rest)[..|group|] == group && (group + rest)[|group|..] == rest;
  }

  /** The scan passes over anything balanced and comes out at the same level. */
  lemma {:induction false} ScanSkipsBalanced(tags: seq<Tag>, i: nat, lvl: nat, context: nat, inner: seq<Tag>)
    requires i + |inner| <= |tags| && tags[i..i + |inner|] == inner && Depth(inner, lvl).Some?
    ensures Scan(tags, i, lvl, context) == Scan(tags, i + |inner|, Depth(inner, lvl).value, context)
    decreases |inner|
  {
    if inner != [] {
      assert tags[i] == inner[0] && tags[i + 1..i + 1 + |inner[1..]|] == inner[1..];
      if inner[0].cls == OPENING {
        ScanSkipsBalanced(tags, i + 1, lvl + 1, context, inner[1..]);
      } else if inner[0].cls == CLOSING {
        ScanSkipsBalanced(tags, i + 1, lvl - 1, context, inner[1..]);
      } else {
        ScanSkipsBalanced(tags, i + 1, lvl, context, inner[1..]);
      }
    }
  }

  // ----- every encoding is balanced

  lemma {:induction false} DepthSum(a: seq<Tag>, b: seq<Tag>, lvl: nat)
    ensures Depth(a + b, lvl) == if Depth(a, lvl).None? then None else Depth(b, Depth(a, lvl).value)
    decreases |a|
  {
    if a == [] {
      assert a + b == b;
    } else {
      assert (a + b)[1..] == a[1..] + b;
      if a[0].cls == OPENING {
        DepthSum(a[1..], b, lvl + 1);
      } else if a[0].cls != CLOSING {
        DepthSum(a[1..], b, lvl);
      } else if lvl != 0 {
        DepthSum(a[1..], b, lvl - 1);
      }
    }
  }

  /** What is balanced at one level is balanced inside brackets. */
  lemma {:induction false} DepthShift(tags: seq<Tag>, lvl: nat)
    requires Depth(tags, lvl).Some?
    ensures Depth(tags, lvl + 1) == Some(Depth(tags, lvl).value + 1)
    decreases |tags|
  {
    if tags != [] {
      if tags[0].cls == OPENING {
        DepthShift(tags[1..], lvl + 1);
      } else if tags[0].cls != CLOSING {
        DepthShift(tags[1..], lvl);
      } else {
        DepthShift(tags[1..], lvl - 1);
      }
    }
  }

  lemma BalancedBrackets(open: Tag, tags: seq<Tag>, close: Tag)
    requires open.cls == OPENING && close.cls == CLOSING && Balanced(tags)
    ensures Balanced([open] + tags + [close])
  {
    DepthShift(tags, 0);
    DepthSum(tags, [close], 1);
    assert ([open] + tags + [close])[1..] == tags + [close];
  }

  lemma BalancedWrap(context: Option<nat>, tags: seq<Tag>)
    requires Balanced(tags)
    ensures Balanced(Wrap(context, tags))
  {
    if context.Some? {
      BalancedBrackets(Tag(OPENING, context.value, []), tags, Tag(CLOSING, context.value, []));
    }
  }

  lemma GroupIsBalanced(tags: seq<Tag>)
    requires IsGroup(tags)
    ensures Balanced(tags)
  {
    if 2 <= |tags| {
      var inner := tags[1..|tags| - 1];
      BalancedBrackets(tags[0], inner, tags[|tags| - 1]);
      assert tags == [tags[0]] + inner + [tags[|tags| - 1]];
    }
  }

  /** The encoding of any value that can be told has balanced brackets. */
  lemma {:induction false} EncodingIsBalanced(s: Schema, v: Value)
    requires Complete(s, v) && Fits(s, v)
    ensures Balanced(Encode(s, v))
    decreases s, 0
  {
    match s {
      case Atomic(_, _) =>
      case Sequence(context, elements) =>
        FieldsAreBalanced(elements, v.fields);
        BalancedWrap(context, EncodeFields(elements, v.fields));
      case Choice(context, alternatives) =>
        EncodingIsBalanced(alternatives[v.which], v.value);
        BalancedWrap(context, Encode(alternatives[v.which], v.value));
      case ExtendedList(context, subtype) =>
        ItemsAreBalanced(subtype, v.items);
        BalancedWrap(context, EncodeItems(subtype, v.items));
      case Any(_) => GroupIsBalanced(v.tags);
    }
  }

  lemma {:induction false} FieldIsBalanced(e: Element, field: Option<Value>)
    requires CompleteField(e, field) && FitsField(e, field)
    ensures Balanced(EncodeField(e, field))
    decreases e, 0
  {
    if field.Some? { EncodingIsBalanced(e.schema, field.value); }
  }

  lemma {:induction false} FieldsAreBalanced(elements: seq<Element>, fields: seq<Option<Value>>)
    requires CompleteFields(elements, fields) && FitsFields(elements, fields)
    ensures Balanced(EncodeFields(elements, fields))
    decreases elements, 0
  {
    if elements != [] {
      FieldIsBalanced(elements[0], fields[0]);
      FieldsAreBalanced(elements[1..], fields[1..]);
      DepthSum(EncodeField(elements[0], fields[0]), EncodeFields(elements[1..], fields[1..]), 0);
    }
  }

  lemma {:induction false} ItemsAreBalanced(subtype: Schema, items: seq<Value>)
    requires CompleteItems(subtype, items) && FitsItems(subtype, items)
    ensures Balanced(EncodeItems(subtype, items))
    decreases subtype, |items| + 1
  {
    if items != [] {
      EncodingIsBalanced(subtype, items[0]);
      ItemsAreBalanced(subtype, items[1..]);
      DepthSum(Encode(subtype, items[0]), EncodeItems(subtype, items[1..]), 0);
    }
  }
}
