/** Constructed data (bacpypes3/constructeddata.py): what a schema encodes to, and what its
    decoders do to a tag list, failures included. An atomic value is one tag, and its contents
    are taken as they are. */
module Schemas {
  import opened Apdus

  datatype TagClass = APPLICATION | CONTEXT | OPENING | CLOSING

  datatype Tag = Tag(cls: TagClass, number: nat, data: Bytes)

  /** A class of elements, with the context it may carry. An atomic one has the number of its
      application tag. */
  datatype Schema =
    | Atomic(kind: nat, context: Option<nat>)
    | Sequence(context: Option<nat>, elements: seq<Element>)
    | Choice(context: Option<nat>, alternatives: seq<Schema>)
    | ExtendedList(context: Option<nat>, subtype: Schema)
    | Any(context: Option<nat>)

  datatype Element = Element(optional: bool, schema: Schema)

  datatype Value =
    | AtomicValue(data: Bytes)
    | SequenceValue(fields: seq<Option<Value>>)
    | ChoiceValue(which: nat, value: Value)
    | ListValue(items: seq<Value>)
    | AnyValue(tags: seq<Tag>)

  /** Endless stands for a loop that never ends. */
  datatype Error = InvalidTag | AttributeError | TypeError | IndexError | Endless

  datatype Result<+T> = Ok(value: T) | Err(error: Error)

  /** What a decoder returned or raised, and the tags it left. */
  datatype Decoded<+T> = Decoded(result: Result<T>, rest: seq<Tag>)

  /** What a decoder has found so far, and the tag it last looked at. */
  datatype Found<+T> = Found(value: T, look: Option<Tag>)

  const DOUBLE: nat := 5
  const REAL: nat := 4

  function Peek(tags: seq<Tag>): Option<Tag> {
    if tags == [] then None else Some(tags[0])
  }

  function Pop(tags: seq<Tag>): seq<Tag> {
    if tags == [] then [] else tags[1..]
  }

  /** Nothing more for this level. */
  predicate Ends(look: Option<Tag>) {
    look.None? || look.value.cls == CLOSING
  }

  // ----- encoding

  function Wrap(context: Option<nat>, tags: seq<Tag>): seq<Tag> {
    if context.None? then tags
    else [Tag(OPENING, context.value, [])] + tags + [Tag(CLOSING, context.value, [])]
  }

  /** A value of the schema with nothing required missing. */
  predicate Complete(s: Schema, v: Value)
    decreases s, 0
  {
    match s
    case Atomic(_, _) => v.AtomicValue?
    case Sequence(_, elements) => v.SequenceValue? && CompleteFields(elements, v.fields)
    case Choice(_, alternatives) =>
      v.ChoiceValue? && v.which < |alternatives| && Complete(alternatives[v.which], v.value)
    case ExtendedList(_, subtype) => v.ListValue? && CompleteItems(subtype, v.items)
    case Any(_) => v.AnyValue?
  }

  predicate CompleteField(e: Element, field: Option<Value>)
    decreases e, 0
  {
    if field.None? then e.optional else Complete(e.schema, field.value)
  }

  predicate CompleteFields(elements: seq<Element>, fields: seq<Option<Value>>)
    decreases elements, 0
  {
    && |fields| == |elements|
    && (elements != [] ==>
      && CompleteField(elements[0], fields[0])
      && CompleteFields(elements[1..], fields[1..]))
  }

  predicate CompleteItems(subtype: Schema, items: seq<Value>)
    decreases subtype, |items| + 1
  {
    items == [] || (Complete(subtype, items[0]) && CompleteItems(subtype, items[1..]))
  }

  function Encode(s: Schema, v: Value): seq<Tag>
    requires Complete(s, v)
    decreases s, 0
  {
    match s
    case Atomic(kind, context) =>
      [if context.None? then Tag(APPLICATION, kind, v.data) else Tag(CONTEXT, context.value, v.data)]
    case Sequence(context, elements) => Wrap(context, EncodeFields(elements, v.fields))
    case Choice(context, alternatives) => Wrap(context, Encode(alternatives[v.which], v.value))
    case ExtendedList(context, subtype) => Wrap(context, EncodeItems(subtype, v.items))
    case Any(_) => v.tags
  }

  function EncodeField(e: Element, field: Option<Value>): seq<Tag>
    requires CompleteField(e, field)
    decreases e, 0
  {
    if field.None? then [] else Encode(e.schema, field.value)
  }

  function EncodeFields(elements: seq<Element>, fields: seq<Option<Value>>): seq<Tag>
    requires CompleteFields(elements, fields)
    decreases elements, 0
  {
    if elements == [] then []
    else EncodeField(elements[0], fields[0]) + EncodeFields(elements[1..], fields[1..])
  }

  function EncodeItems(subtype: Schema, items: seq<Value>): seq<Tag>
    requires CompleteItems(subtype, items)
    decreases subtype, |items| + 1
  {
    if items == [] then [] else Encode(subtype, items[0]) + EncodeItems(subtype, items[1..])
  }

  // ----- decoding

  /** The exceptions that a decoder working on a copy of the list recovers from. */
  predicate Caught(e: Error) {
    e == InvalidTag || e == AttributeError
  }

  function DecodeAtomic(kind: nat, context: Option<nat>, tags: seq<Tag>): Decoded<Value> {
    if tags == [] then Decoded(Err(InvalidTag), [])
    else if (tags[0].cls == APPLICATION && context.None? && tags[0].number == kind)
         || (tags[0].cls == CONTEXT && context == Some(tags[0].number))
    then Decoded(Ok(AtomicValue(tags[0].data)), tags[1..])
    else Decoded(Err(InvalidTag), tags[1..])
  }

  predicate Opens(context: nat, look: Option<Tag>) {
    look.Some? && look.value.cls == OPENING && look.value.number == context
  }

  predicate Closes(context: nat, look: Option<Tag>) {
    look.Some? && look.value.cls == CLOSING && look.value.number == context
  }

  /** The closing tag, judged by the tag last looked at. */
  function Close<T>(context: Option<nat>, found: T, look: Option<Tag>, tags: seq<Tag>): Decoded<T> {
    if context.None? then Decoded(Ok(found), tags)
    else if Closes(context.value, look) then Decoded(Ok(found), Pop(tags))
    else Decoded(Err(InvalidTag), tags)
  }

  /** issubclass(element, class of the application tag): Double is declared as a subclass of Real. */
  predicate AppMatches(kind: nat, number: nat) {
    kind == number || (kind == DOUBLE && number == REAL)
  }

  /** Application tag numbers that name no class. */
  predicate Reserved(number: nat) {
    13 <= number
  }

  /** What the table of classes makes of them: it has 16 entries, and the last three are empty. */
  function NoClass(number: nat): Error {
    if number < 16 then TypeError else IndexError
  }

  function Decode(s: Schema, tags: seq<Tag>): Decoded<Value>
    decreases s, 0
  {
    match s
    case Atomic(kind, context) => DecodeAtomic(kind, context, tags)
    case Sequence(context, elements) =>
      if context.Some? && !Opens(context.value, Peek(tags)) then Decoded(Err(InvalidTag), tags)
      else
        var inner := if context.None? then tags else tags[1..];
        var body := DecodeElements(elements, inner, Peek(inner));
        if body.result.Err? then Decoded(Err(body.result.error), body.rest)
        else Close(context, SequenceValue(body.result.value.value), body.result.value.look, body.rest)
    case Choice(context, alternatives) =>
      if context.Some? && !Opens(context.value, Peek(tags)) then Decoded(Err(InvalidTag), tags)
      else
        var inner := if context.None? then tags else tags[1..];
        var body := DecodeAlternatives(alternatives, 0, inner);
        if body.result.Err? then Decoded(Err(body.result.error), body.rest)
        else Close(context, body.result.value.value, body.result.value.look, body.rest)
    case ExtendedList(context, subtype) =>
      if context.Some? && !Opens(context.value, Peek(tags)) then Decoded(Err(InvalidTag), tags)
      else
        var inner := if context.None? then tags else tags[1..];
        var body := DecodeItems(subtype, inner);
        if body.result.Err? then Decoded(Err(body.result.error), body.rest)
        else Close(context, ListValue(body.result.value), Peek(body.rest), body.rest)
    case Any(context) => DecodeAny(context, tags)
  }

  /** A value taken from the list itself, and a fresh look at what follows. */
  function Taken(d: Decoded<Value>): Decoded<Found<Option<Value>>> {
    if d.result.Err? then Decoded(Err(d.result.error), d.rest)
    else Decoded(Ok(Found(Some(d.result.value), Peek(d.rest))), d.rest)
  }

  function Absent(optional: bool, look: Option<Tag>, tags: seq<Tag>): Decoded<Found<Option<Value>>> {
    if optional then Decoded(Ok(Found(None, look)), tags) else Decoded(Err(AttributeError), tags)
  }

  /** An attempt on a copy: the list loses what a success took, and nobody looks again. */
  function Tried(d: Decoded<Value>, look: Option<Tag>, tags: seq<Tag>): Decoded<Found<Option<Value>>> {
    if d.result.Ok? then Decoded(Ok(Found(Some(d.result.value), look)), d.rest)
    else if Caught(d.result.error) then Decoded(Ok(Found(None, look)), tags)
    else Decoded(Err(d.result.error), tags)
  }

  /** An attempt on the list itself, for an element that is not atomic: what it took is gone
      even when it fails, and then nobody looks again. */
  function Attempted(optional: bool, d: Decoded<Value>, look: Option<Tag>): Decoded<Found<Option<Value>>> {
    if d.result.Err? && d.result.error == InvalidTag then Absent(optional, look, d.rest) else Taken(d)
  }

  /** One element of a sequence, when the tag last looked at is the one given. */
  function DecodeElement(e: Element, tags: seq<Tag>, look: Option<Tag>): Decoded<Found<Option<Value>>>
    decreases e, 0
  {
    if Ends(look) then Absent(e.optional, look, tags)
    else if e.schema.Choice? || e.schema.ExtendedList? then Taken(Decode(e.schema, tags))
    else if look.value.cls != APPLICATION then
      if e.schema.context == Some(look.value.number) then Taken(Decode(e.schema, tags))
      else if e.optional && e.schema.context.None? then Tried(Decode(e.schema, tags), look, tags)
      else Absent(e.optional, look, tags)
    else if e.schema.Atomic? then
      if Reserved(look.value.number) then Decoded(Err(NoClass(look.value.number)), tags)
      else if AppMatches(e.schema.kind, look.value.number) then Taken(Decode(e.schema, tags))
      else Absent(e.optional, look, tags)
    else Attempted(e.optional, Decode(e.schema, tags), look)
  }

  function DecodeElements(elements: seq<Element>, tags: seq<Tag>, look: Option<Tag>): Decoded<Found<seq<Option<Value>>>>
    decreases elements, 0
  {
    if elements == [] then Decoded(Ok(Found([], look)), tags)
    else
      var first := DecodeElement(elements[0], tags, look);
      if first.result.Err? then Decoded(Err(first.result.error), first.rest)
      else
        var more := DecodeElements(elements[1..], first.rest, first.result.value.look);
        if more.result.Err? then more
        else Decoded(Ok(Found([first.result.value.value] + more.result.value.value, more.result.value.look)), more.rest)
  }

  /** One alternative of a choice, the tags not being at an end; None when it is passed over. */
  function DecodeAlternative(s: Schema, tags: seq<Tag>): Decoded<Found<Option<Value>>>
    requires tags != []
    decreases s, 1
  {
    var look := Some(tags[0]);
    if look.value.cls != APPLICATION then
      if s.context == Some(look.value.number) then Taken(Decode(s, tags)) else Decoded(Ok(Found(None, look)), tags)
    else if s.Atomic? then
      if Reserved(look.value.number) then Decoded(Err(NoClass(look.value.number)), tags)
      else if AppMatches(s.kind, look.value.number) then Taken(Decode(s, tags))
      else Decoded(Ok(Found(None, look)), tags)
    else Tried(Decode(s, tags), look, tags)
  }

  function DecodeAlternatives(alternatives: seq<Schema>, which: nat, tags: seq<Tag>): Decoded<Found<Value>>
    decreases alternatives, 0
  {
    if alternatives == [] || Ends(Peek(tags)) then Decoded(Err(AttributeError), tags)
    else
      var first := DecodeAlternative(alternatives[0], tags);
      if first.result.Err? then Decoded(Err(first.result.error), first.rest)
      else
        match first.result.value.value
        case None => DecodeAlternatives(alternatives[1..], which + 1, tags)
        case Some(v) => Decoded(Ok(Found(ChoiceValue(which, v), first.result.value.look)), first.rest)
  }

  /** The next element of a list, tried on a copy; None at the end, or when the attempt fails. */
  function DecodeItem(subtype: Schema, tags: seq<Tag>): (d: Decoded<Option<Value>>)
    ensures d.result.Ok? && d.result.value.Some? ==> |d.rest| < |tags|
    decreases subtype, 1
  {
    if Ends(Peek(tags)) then Decoded(Ok(None), tags)
    else
      var whole := Decode(subtype, tags);
      if whole.result.Err? then
        Decoded(if Caught(whole.result.error) then Ok(None) else Err(whole.result.error), tags)
      else if |tags| <= |whole.rest| then Decoded(Err(Endless), tags)
      else Decoded(Ok(Some(whole.result.value)), whole.rest)
  }

  function DecodeItems(subtype: Schema, tags: seq<Tag>): Decoded<seq<Value>>
    decreases subtype, 2, |tags|
  {
    var first := DecodeItem(subtype, tags);
    if first.result.Err? then Decoded(Err(first.result.error), tags)
    else if first.result.value.None? then Decoded(Ok([]), tags)
    else
      var more := DecodeItems(subtype, first.rest);
      if more.result.Err? then more else Decoded(Ok([first.result.value.value] + more.result.value), more.rest)
  }

  /** The loop that looks for the matching closing tag: where it stops, and at which level. */
  function Scan(tags: seq<Tag>, i: nat, lvl: nat, context: nat): (r: Result<(nat, nat)>)
    ensures r.Ok? && i <= |tags| ==> i <= r.value.0 <= |tags|
    ensures r.Err? ==> r.error == InvalidTag
    decreases |tags| - i
  {
    if |tags| <= i then Ok((i, lvl))
    else if tags[i].cls == OPENING then Scan(tags, i + 1, lvl + 1, context)
    else if tags[i].cls != CLOSING then Scan(tags, i + 1, lvl, context)
    else if 0 < lvl then Scan(tags, i + 1, lvl - 1, context)
    else if tags[i].number != context then Err(InvalidTag)
    else Ok((i, 0))
  }

  /** An opening tag that is never closed takes the whole list. */
  function DecodeGroup(tags: seq<Tag>): Decoded<Value>
    requires tags != []
  {
    var scan := Scan(tags, 1, 0, tags[0].number);
    if scan.Err? then Decoded(Err(scan.error), tags)
    else if scan.value.1 != 0 then Decoded(Err(InvalidTag), tags)
    else
      var end := if scan.value.0 < |tags| then scan.value.0 + 1 else |tags|;
      Decoded(Ok(AnyValue(tags[..end])), tags[end..])
  }

  function DecodeAny(context: Option<nat>, tags: seq<Tag>): Decoded<Value> {
    if tags == [] then Decoded(Err(InvalidTag), tags)
    else if tags[0].cls == CLOSING then Decoded(Err(InvalidTag), tags)
    else if context.Some? && (tags[0].cls == APPLICATION || tags[0].number != context.value) then
      Decoded(Err(InvalidTag), tags)
    else if tags[0].cls == OPENING then DecodeGroup(tags)
    else Decoded(Ok(AnyValue([tags[0]])), tags[1..])
  }
}
