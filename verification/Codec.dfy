/** The encoders and decoders of bacpypes3/constructeddata.py in their own form: encoders
    append to a tag list, decoders pop tags from one, look ahead, and try elements on a copy.
    Each is proved to do what its function in Schemas says. */
module Codec {
  import opened Apdus
  import opened Schemas
  import S = Schemas
  import opened Prefixes
  import opened RoundTrips

  class TagList {
    var tagList: seq<Tag>

    constructor (tags: seq<Tag>)
      ensures tagList == tags
    {
      tagList := tags;
    }

    method Append(tag: Tag)
      modifies this
      ensures tagList == old(tagList) + [tag]
    {
      tagList := tagList + [tag];
    }

    method Extend(tags: TagList)
      modifies this
      ensures tagList == old(tagList) + old(tags.tagList)
    {
      tagList := tagList + tags.tagList;
    }

    method Peek() returns (tag: Option<Tag>)
      ensures tag == S.Peek(tagList)
    {
      tag := if tagList == [] then None else Some(tagList[0]);
    }

    method Pop() returns (tag: Option<Tag>)
      modifies this
      ensures tag == S.Peek(old(tagList)) && tagList == S.Pop(old(tagList))
    {
      if tagList == [] {
        return None;
      }
      tag := Some(tagList[0]);
      tagList := tagList[1..];
    }

    /** del tagList[:n] */
    method Delete(n: nat)
      requires n <= |tagList|
      modifies this
      ensures tagList == old(tagList)[n..]
    {
      tagList := tagList[n..];
    }
  }

  // ----- encoding

  lemma CompleteTail(elements: seq<Element>, fields: seq<Option<Value>>, i: nat)
    requires |fields| == |elements| && i < |elements|
    ensures CompleteFields(elements[i..], fields[i..])
       <==> CompleteField(elements[i], fields[i]) && CompleteFields(elements[i + 1..], fields[i + 1..])
    ensures CompleteFields(elements[i..], fields[i..]) ==>
      EncodeFields(elements[i..], fields[i..])
      == S.EncodeField(elements[i], fields[i]) + EncodeFields(elements[i + 1..], fields[i + 1..])
  {
    assert elements[i..][0] == elements[i] && elements[i..][1..] == elements[i + 1..];
    assert fields[i..][0] == fields[i] && fields[i..][1..] == fields[i + 1..];
  }

  lemma CompleteItemsTail(subtype: Schema, items: seq<Value>, i: nat)
    requires i < |items|
    ensures CompleteItems(subtype, items[i..])
       <==> Complete(subtype, items[i]) && CompleteItems(subtype, items[i + 1..])
    ensures CompleteItems(subtype, items[i..]) ==>
      EncodeItems(subtype, items[i..]) == S.Encode(subtype, items[i]) + EncodeItems(subtype, items[i + 1..])
  {
    assert items[i..][0] == items[i] && items[i..][1..] == items[i + 1..];
  }

  /** encode of each class of elements: it fails exactly on a value that is not complete. */
  method EncodeValue(s: Schema, v: Value) returns (r: Result<TagList>)
    ensures r.Ok? <==> Complete(s, v)
    ensures r.Ok? ==> fresh(r.value) && r.value.tagList == S.Encode(s, v)
    decreases s, 1
  {
    match s {
      case Atomic(kind, context) =>
        if !v.AtomicValue? {
          return Err(TypeError);
        }
        var tags := new TagList([]);
        tags.Append(if context.None? then Tag(APPLICATION, kind, v.data) else Tag(CONTEXT, context.value, v.data));
        r := Ok(tags);
      case Sequence(_, _) => r := EncodeSequence(s, v);
      case Choice(_, _) => r := EncodeChoice(s, v);
      case ExtendedList(_, _) => r := EncodeList(s, v);
      case Any(_) =>
        if !v.AnyValue? {
          return Err(TypeError);
        }
        var tags := new TagList(v.tags);
        r := Ok(tags);
    }
  }

  method Open(context: Option<nat>) returns (tags: TagList)
    ensures fresh(tags) && tags.tagList == if context.None? then [] else [Tag(OPENING, context.value, [])]
  {
    tags := new TagList([]);
    if context.Some? { tags.Append(Tag(OPENING, context.value, [])); }
  }

  method EncodeSequence(s: Schema, v: Value) returns (r: Result<TagList>)
    requires s.Sequence?
    ensures r.Ok? <==> Complete(s, v)
    ensures r.Ok? ==> fresh(r.value) && r.value.tagList == S.Encode(s, v)
    decreases s, 0
  {
    if !v.SequenceValue? || |v.fields| != |s.elements| {
      return Err(TypeError);
    }
    var tags := Open(s.context);
    ghost var start := tags.tagList;
    ghost var inner: seq<Tag> := [];
    for i := 0 to |s.elements|
      invariant fresh(tags) && tags.tagList == start + inner
      invariant CompleteFields(s.elements, v.fields) <==> CompleteFields(s.elements[i..], v.fields[i..])
      invariant CompleteFields(s.elements, v.fields) ==>
        EncodeFields(s.elements, v.fields) == inner + EncodeFields(s.elements[i..], v.fields[i..])
    {
      CompleteTail(s.elements, v.fields, i);
      var field := EncodeField(s.elements[i], v.fields[i]);
      if field.Err? {
        return Err(field.error);
      }
      inner := inner + field.value.tagList;
      tags.Extend(field.value);
    }
    assert inner + [] == inner;
    if s.context.Some? { tags.Append(Tag(CLOSING, s.context.value, [])); }
    r := Ok(tags);
  }

  method EncodeField(e: Element, field: Option<Value>) returns (r: Result<TagList>)
    ensures r.Ok? <==> CompleteField(e, field)
    ensures r.Ok? ==> fresh(r.value) && r.value.tagList == S.EncodeField(e, field)
    decreases e, 0
  {
    if field.None? {
      if !e.optional {
        return Err(AttributeError);
      }
      var none := new TagList([]);
      r := Ok(none);
    } else {
      r := EncodeValue(e.schema, field.value);
    }
  }

  method EncodeChoice(s: Schema, v: Value) returns (r: Result<TagList>)
    requires s.Choice?
    ensures r.Ok? <==> Complete(s, v)
    ensures r.Ok? ==> fresh(r.value) && r.value.tagList == S.Encode(s, v)
    decreases s, 0
  {
    if !v.ChoiceValue? || |s.alternatives| <= v.which {
      return Err(AttributeError);
    }
    var tags := Open(s.context);
    var inner := EncodeValue(s.alternatives[v.which], v.value);
    if inner.Err? {
      return inner;
    }
    tags.Extend(inner.value);
    if s.context.Some? { tags.Append(Tag(CLOSING, s.context.value, [])); }
    r := Ok(tags);
  }

  method EncodeList(s: Schema, v: Value) returns (r: Result<TagList>)
    requires s.ExtendedList?
    ensures r.Ok? <==> Complete(s, v)
    ensures r.Ok? ==> fresh(r.value) && r.value.tagList == S.Encode(s, v)
    decreases s, 0
  {
    if !v.ListValue? {
      return Err(TypeError);
    }
    var tags := Open(s.context);
    ghost var start := tags.tagList;
    ghost var inner: seq<Tag> := [];
    for i := 0 to |v.items|
      invariant fresh(tags) && tags.tagList == start + inner
      invariant CompleteItems(s.subtype, v.items) <==> CompleteItems(s.subtype, v.items[i..])
      invariant CompleteItems(s.subtype, v.items) ==>
        EncodeItems(s.subtype, v.items) == inner + EncodeItems(s.subtype, v.items[i..])
    {
      CompleteItemsTail(s.subtype, v.items, i);
      var item := EncodeValue(s.subtype, v.items[i]);
      if item.Err? {
        return item;
      }
      inner := inner + item.value.tagList;
      tags.Extend(item.value);
    }
    assert inner + [] == inner;
    if s.context.Some? { tags.Append(Tag(CLOSING, s.context.value, [])); }
    r := Ok(tags);
  }

  // ----- decoding

  method PopAtomic(kind: nat, context: Option<nat>, tags: TagList) returns (r: Result<Value>)
    modifies tags
    ensures Decoded(r, tags.tagList) == DecodeAtomic(kind, context, old(tags.tagList))
  {
    var tag := tags.Pop();
    if tag.None? {
      return Err(InvalidTag);
    }
    if tag.value.cls == APPLICATION {
      if context.Some? || tag.value.number != kind {
        return Err(InvalidTag);
      }
    } else if tag.value.cls == CONTEXT {
      if context.None? || tag.value.number != context.value {
        return Err(InvalidTag);
      }
    } else {
      return Err(InvalidTag);
    }
    r := Ok(AtomicValue(tag.value.data));
  }

  method DecodeValue(s: Schema, tags: TagList) returns (r: Result<Value>)
    modifies tags
    ensures Decoded(r, tags.tagList) == S.Decode(s, old(tags.tagList))
    decreases s, 1
  {
    match s {
      case Atomic(kind, context) => r := PopAtomic(kind, context, tags);
      case Sequence(_, _) => r := DecodeSequence(s, tags);
      case Choice(_, _) => r := DecodeChoice(s, tags);
      case ExtendedList(_, _) => r := DecodeList(s, tags);
      case Any(context) => r := PopAny(context, tags);
    }
  }

  /** Check and consume the opening tag, if there is a context. */
  method PopOpening(context: Option<nat>, tags: TagList) returns (ok: bool)
    modifies tags
    ensures ok <==> context.None? || Opens(context.value, S.Peek(old(tags.tagList)))
    ensures tags.tagList == if ok then Inner(context, old(tags.tagList)) else old(tags.tagList)
  {
    ok := true;
    if context.Some? {
      var tag := tags.Peek();
      ok := tag.Some? && tag.value.cls == OPENING && tag.value.number == context.value;
      if ok { var _ := tags.Pop(); }
    }
  }

  /** Check the tag last looked at, and consume the closing tag, if there is a context. */
  method PopClosing<T>(context: Option<nat>, found: T, look: Option<Tag>, tags: TagList) returns (r: Result<T>)
    modifies tags
    ensures Decoded(r, tags.tagList) == Close(context, found, look, old(tags.tagList))
  {
    if context.Some? {
      if look.None? || look.value.cls != CLOSING || look.value.number != context.value {
        return Err(InvalidTag);
      }
      var _ := tags.Pop();
    }
    r := Ok(found);
  }

  method DecodeSequence(s: Schema, tags: TagList) returns (r: Result<Value>)
    requires s.Sequence?
    modifies tags
    ensures Decoded(r, tags.tagList) == S.Decode(s, old(tags.tagList))
    decreases s, 0
  {
    var begun := PopOpening(s.context, tags);
    if !begun {
      return Err(InvalidTag);
    }
    var body := DecodeBody(s.elements, tags);
    if body.Err? {
      return Err(body.error);
    }
    r := PopClosing(s.context, SequenceValue(body.value.value), body.value.look, tags);
  }

  /** What the elements still to come find, after those already found. */
  function Prefixed(fields: seq<Option<Value>>,
                    d: Decoded<Found<seq<Option<Value>>>>): Decoded<Found<seq<Option<Value>>>> {
    if d.result.Err? then d else Decoded(Ok(Found(fields + d.result.value.value, d.result.value.look)), d.rest)
  }

  lemma PrefixedOnce(elements: seq<Element>, i: nat, fields: seq<Option<Value>>, tags: seq<Tag>, look: Option<Tag>)
    requires i < |elements|
    ensures var first := S.DecodeElement(elements[i], tags, look);
      Prefixed(fields, DecodeElements(elements[i..], tags, look)) ==
        if first.result.Err? then Decoded(Err(first.result.error), first.rest)
        else Prefixed(fields + [first.result.value.value],
                      DecodeElements(elements[i + 1..], first.rest, first.result.value.look))
  {
    var rest := elements[i..];
    assert rest[0] == elements[i] && rest[1..] == elements[i + 1..];
    var first := S.DecodeElement(elements[i], tags, look);
    if first.result.Ok? {
      var more := DecodeElements(elements[i + 1..], first.rest, first.result.value.look);
      if more.result.Ok? {
        assert fields + ([first.result.value.value] + more.result.value.value)
            == fields + [first.result.value.value] + more.result.value.value;
      }
    }
  }

  /** The loop of Sequence.decode over the elements in order. */
  method DecodeBody(elements: seq<Element>, tags: TagList) returns (r: Result<Found<seq<Option<Value>>>>)
    modifies tags
    ensures Decoded(r, tags.tagList) == DecodeElements(elements, old(tags.tagList), S.Peek(old(tags.tagList)))
    decreases elements
  {
    var look := tags.Peek();
    ghost var whole := DecodeElements(elements, tags.tagList, look);
    var fields: seq<Option<Value>> := [];
    assert whole.result.Ok? ==> [] + whole.result.value.value == whole.result.value.value;
    for i := 0 to |elements|
      invariant whole == Prefixed(fields, DecodeElements(elements[i..], tags.tagList, look))
    {
      PrefixedOnce(elements, i, fields, tags.tagList, look);
      var found := DecodeElement(elements[i], tags, look);
      if found.Err? {
        return Err(found.error);
      }
      fields := fields + [found.value.value];
      look := found.value.look;
    }
    assert fields + [] == fields;
    r := Ok(Found(fields, look));
  }

  /** One turn of that loop. */
  method DecodeElement(e: Element, tags: TagList, look: Option<Tag>) returns (r: Result<Found<Option<Value>>>)
    modifies tags
    ensures Decoded(r, tags.tagList) == S.DecodeElement(e, old(tags.tagList), look)
    decreases e
  {
    if look.None? || look.value.cls == CLOSING {
      r := NotThere(e, look);
    } else if e.schema.Choice? || e.schema.ExtendedList? {
      r := Take(e, tags);
    } else if look.value.cls == CONTEXT || look.value.cls == OPENING {
      if e.schema.context == Some(look.value.number) {
        r := Take(e, tags);
      } else if e.optional && e.schema.context.None? {
        r := Try(e.schema, tags, look);
      } else {
        r := NotThere(e, look);
      }
    } else if e.schema.Atomic? {
      if Reserved(look.value.number) {
        r := Err(NoClass(look.value.number));
      } else if AppMatches(e.schema.kind, look.value.number) {
        r := Take(e, tags);
      } else {
        r := NotThere(e, look);
      }
    } else {
      r := Attempt(e, tags, look);
    }
  }

  method NotThere(e: Element, look: Option<Tag>) returns (r: Result<Found<Option<Value>>>)
    ensures r == if e.optional then Ok(Found(None, look)) else Err(AttributeError)
  {
    if e.optional {
      r := Ok(Found(None, look));
    } else {
      r := Err(AttributeError);
    }
  }

  method Take(e: Element, tags: TagList) returns (r: Result<Found<Option<Value>>>)
    modifies tags
    ensures Decoded(r, tags.tagList) == Taken(S.Decode(e.schema, old(tags.tagList)))
    decreases e, 0
  {
    var value := DecodeValue(e.schema, tags);
    if value.Err? {
      return Err(value.error);
    }
    var look := tags.Peek();
    r := Ok(Found(Some(value.value), look));
  }

  /** On a copy of the list: only a success deletes from the list what the copy lost. */
  method DecodeCopy(s: Schema, tags: TagList) returns (r: Result<Value>)
    modifies tags
    ensures r == S.Decode(s, old(tags.tagList)).result
    ensures tags.tagList == if r.Ok? then S.Decode(s, old(tags.tagList)).rest else old(tags.tagList)
    decreases s, 2
  {
    var copy := new TagList(tags.tagList);
    DecodeLeaves(s, tags.tagList);
    LeavesEnd(S.Decode(s, tags.tagList).rest, tags.tagList);
    r := DecodeValue(s, copy);
    if r.Ok? { tags.Delete(|tags.tagList| - |copy.tagList|); }
  }

  method Try(s: Schema, tags: TagList, look: Option<Tag>) returns (r: Result<Found<Option<Value>>>)
    modifies tags
    ensures Decoded(r, tags.tagList) == Tried(S.Decode(s, old(tags.tagList)), look, old(tags.tagList))
    decreases s, 3
  {
    var value := DecodeCopy(s, tags);
    if value.Ok? {
      r := Ok(Found(Some(value.value), look));
    } else if value.error == InvalidTag || value.error == AttributeError {
      r := Ok(Found(None, look));
    } else {
      r := Err(value.error);
    }
  }

  method Attempt(e: Element, tags: TagList, look: Option<Tag>) returns (r: Result<Found<Option<Value>>>)
    modifies tags
    ensures Decoded(r, tags.tagList) == Attempted(e.optional, S.Decode(e.schema, old(tags.tagList)), look)
    decreases e, 0
  {
    var value := DecodeValue(e.schema, tags);
    if value.Ok? {
      var next := tags.Peek();
      r := Ok(Found(Some(value.value), next));
    } else if value.error == InvalidTag {
      r := NotThere(e, look);
    } else {
      r := Err(value.error);
    }
  }

  method DecodeChoice(s: Schema, tags: TagList) returns (r: Result<Value>)
    requires s.Choice?
    modifies tags
    ensures Decoded(r, tags.tagList) == S.Decode(s, old(tags.tagList))
    decreases s, 0
  {
    var begun := PopOpening(s.context, tags);
    if !begun {
      return Err(InvalidTag);
    }
    var body := FindAlternative(s.alternatives, tags);
    if body.Err? {
      return Err(body.error);
    }
    r := PopClosing(s.context, body.value.value, body.value.look, tags);
  }

  /** The loop of Choice.decode: the first alternative that is not passed over. */
  method FindAlternative(alternatives: seq<Schema>, tags: TagList) returns (r: Result<Found<Value>>)
    modifies tags
    ensures Decoded(r, tags.tagList) == DecodeAlternatives(alternatives, 0, old(tags.tagList))
    decreases alternatives
  {
    var look := tags.Peek();
    ghost var all := tags.tagList;
    for i := 0 to |alternatives|
      invariant tags.tagList == all && look == S.Peek(all)
      invariant DecodeAlternatives(alternatives, 0, all) == DecodeAlternatives(alternatives[i..], i, all)
    {
      assert alternatives[i..][0] == alternatives[i] && alternatives[i..][1..] == alternatives[i + 1..];
      if look.None? || look.value.cls == CLOSING {
        return Err(AttributeError);
      }
      var found := TryAlternative(alternatives[i], tags);
      if found.Err? {
        return Err(found.error);
      }
      if found.value.value.Some? {
        return Ok(Found(ChoiceValue(i, found.value.value.value), found.value.look));
      }
    }
    r := Err(AttributeError);
  }

  method TryAlternative(s: Schema, tags: TagList) returns (r: Result<Found<Option<Value>>>)
    requires tags.tagList != []
    modifies tags
    ensures Decoded(r, tags.tagList) == DecodeAlternative(s, old(tags.tagList))
    ensures r.Ok? && r.value.value.None? ==> tags.tagList == old(tags.tagList)
    decreases s, 4
  {
    var look := tags.Peek();
    if look.value.cls != APPLICATION {
      if s.context == Some(look.value.number) {
        r := TakeAlternative(s, tags);
      } else {
        r := Ok(Found(None, look));
      }
    } else if s.Atomic? {
      if Reserved(look.value.number) {
        r := Err(NoClass(look.value.number));
      } else if AppMatches(s.kind, look.value.number) {
        r := TakeAlternative(s, tags);
      } else {
        r := Ok(Found(None, look));
      }
    } else {
      r := Try(s, tags, look);
    }
  }

  method TakeAlternative(s: Schema, tags: TagList) returns (r: Result<Found<Option<Value>>>)
    modifies tags
    ensures Decoded(r, tags.tagList) == Taken(S.Decode(s, old(tags.tagList)))
    decreases s, 2
  {
    var value := DecodeValue(s, tags);
    if value.Err? {
      return Err(value.error);
    }
    var look := tags.Peek();
    r := Ok(Found(Some(value.value), look));
  }

  method DecodeList(s: Schema, tags: TagList) returns (r: Result<Value>)
    requires s.ExtendedList?
    modifies tags
    ensures Decoded(r, tags.tagList) == S.Decode(s, old(tags.tagList))
    decreases s, 0
  {
    var begun := PopOpening(s.context, tags);
    if !begun {
      return Err(InvalidTag);
    }
    var items := FindItems(s.subtype, tags);
    if items.Err? {
      return Err(items.error);
    }
    var look := tags.Peek();
    r := PopClosing(s.context, ListValue(items.value), look, tags);
  }

  function PrefixedItems(items: seq<Value>, d: Decoded<seq<Value>>): Decoded<seq<Value>> {
    if d.result.Err? then d else Decoded(Ok(items + d.result.value), d.rest)
  }

  lemma PrefixedItem(subtype: Schema, items: seq<Value>, tags: seq<Tag>)
    ensures var first := DecodeItem(subtype, tags);
      PrefixedItems(items, DecodeItems(subtype, tags)) ==
        if first.result.Err? then Decoded(Err(first.result.error), tags)
        else if first.result.value.None? then Decoded(Ok(items), tags)
        else PrefixedItems(items + [first.result.value.value], DecodeItems(subtype, first.rest))
  {
    var first := DecodeItem(subtype, tags);
    assert items + [] == items;
    if first.result.Ok? && first.result.value.Some? {
      var more := DecodeItems(subtype, first.rest);
      if more.result.Ok? {
        assert items + ([first.result.value.value] + more.result.value)
            == items + [first.result.value.value] + more.result.value;
      }
    }
  }

  /** One turn of the loop of ExtendedList.decode. Where the source would go round for ever,
      because an element has been found in no tags at all, the result is Endless. */
  method FindItem(subtype: Schema, tags: TagList) returns (r: Result<Option<Value>>)
    modifies tags
    ensures Decoded(r, tags.tagList) == DecodeItem(subtype, old(tags.tagList))
    decreases subtype, 3
  {
    var look := tags.Peek();
    if look.None? || look.value.cls == CLOSING {
      return Ok(None);
    }
    var before := |tags.tagList|;
    var value := DecodeCopy(subtype, tags);
    if value.Err? {
      r := if value.error == InvalidTag || value.error == AttributeError then Ok(None) else Err(value.error);
    } else if before <= |tags.tagList| {
      DecodeLeaves(subtype, old(tags.tagList));
      LeavesEnd(tags.tagList, old(tags.tagList));
      r := Err(Endless);
    } else {
      r := Ok(Some(value.value));
    }
  }

  /** The loop of ExtendedList.decode. */
  method FindItems(subtype: Schema, tags: TagList) returns (r: Result<seq<Value>>)
    modifies tags
    ensures Decoded(r, tags.tagList) == DecodeItems(subtype, old(tags.tagList))
    decreases subtype, 5
  {
    ghost var whole := DecodeItems(subtype, tags.tagList);
    var items: seq<Value> := [];
    assert whole.result.Ok? ==> [] + whole.result.value == whole.result.value;
    while true
      invariant whole == PrefixedItems(items, DecodeItems(subtype, tags.tagList))
      decreases |tags.tagList|
    {
      PrefixedItem(subtype, items, tags.tagList);
      var item := FindItem(subtype, tags);
      if item.Err? {
        return Err(item.error);
      }
      if item.value.None? {
        return Ok(items);
      }
      items := items + [item.value.value];
    }
  }

  /** Any.decode */
  method PopAny(context: Option<nat>, tags: TagList) returns (r: Result<Value>)
    modifies tags
    ensures Decoded(r, tags.tagList) == DecodeAny(context, old(tags.tagList))
  {
    var tag := tags.Peek();
    if tag.None? || tag.value.cls == CLOSING {
      return Err(InvalidTag);
    }
    if context.Some? && (tag.value.cls == APPLICATION || tag.value.number != context.value) {
      return Err(InvalidTag);
    }
    if tag.value.cls == OPENING {
      r := PopGroup(tag.value.number, tags);
    } else {
      var _ := tags.Pop();
      r := Ok(AnyValue([tag.value]));
    }
  }

  /** The loop of Any.decode that looks for the matching closing tag. */
  method PopGroup(context: nat, tags: TagList) returns (r: Result<Value>)
    requires tags.tagList != [] && context == tags.tagList[0].number
    modifies tags
    ensures Decoded(r, tags.tagList) == DecodeGroup(old(tags.tagList))
  {
    var i, lvl := 1, 0;
    while i < |tags.tagList|
      invariant 1 <= i <= |tags.tagList| && 0 <= lvl
      invariant Scan(tags.tagList, 1, 0, context) == Scan(tags.tagList, i, lvl, context)
    {
      if tags.tagList[i].cls == OPENING {
        lvl := lvl + 1;
      } else if tags.tagList[i].cls == CLOSING {
        if lvl == 0 {
          if tags.tagList[i].number != context {
            return Err(InvalidTag);
          }
          break;
        }
        lvl := lvl - 1;
      }
      i := i + 1;
    }
    if lvl != 0 {
      return Err(InvalidTag);
    }
    var end := if i < |tags.tagList| then i + 1 else |tags.tagList|;
    r := Ok(AnyValue(tags.tagList[..end]));
    tags.Delete(end);
  }

  // ----- a value inside an Any

  const NULL: nat := 0

  /** Any.cast_out: what the tags decode to as the schema, or as a null where that is allowed. */
  function CastOutOf(context: Option<nat>, tags: seq<Tag>, s: Schema, nullAllowed: bool): Result<Value> {
    if context.Some? && !Opens(context.value, S.Peek(tags)) then Err(InvalidTag)
    else
      var inner := Inner(context, tags);
      if nullAllowed && inner == [] then Err(AttributeError)
      else
        var isNull := nullAllowed && inner[0].cls == APPLICATION && inner[0].number == NULL;
        var d := S.Decode(if isNull then Atomic(NULL, None) else s, inner);
        if d.result.Ok? && context.Some? && !Closes(context.value, S.Peek(d.rest)) then Err(InvalidTag) else d.result
  }

  /** What is cast into an Any is cast out of it again. */
  lemma CastRoundTrip(context: Option<nat>, s: Schema, v: Value, nullAllowed: bool)
    requires Complete(s, v) && Fits(s, v) && Told(s, v, After(context, []))
    requires nullAllowed ==>
      S.Encode(s, v) != [] && !(S.Encode(s, v)[0].cls == APPLICATION && S.Encode(s, v)[0].number == NULL)
    ensures CastOutOf(context, Wrap(context, S.Encode(s, v)), s, nullAllowed) == Ok(v)
  {
    var inner := S.Encode(s, v);
    Unwrap(context, inner, []);
    assert Wrap(context, inner) + [] == Wrap(context, inner);
    RoundTrip(s, v, After(context, []));
    if nullAllowed { assert (inner + After(context, []))[0] == inner[0]; }
  }

  /** And in its brackets it can be sent on as an element of its own. */
  lemma CastIsGroup(context: nat, s: Schema, v: Value)
    requires Complete(s, v) && Fits(s, v)
    ensures Fits(Any(Some(context)), AnyValue(Wrap(Some(context), S.Encode(s, v))))
  {
    var inner := S.Encode(s, v);
    var tags := Wrap(Some(context), inner);
    EncodingIsBalanced(s, v);
    assert tags[1..|tags| - 1] == inner;
  }

  class AnyElement {
    const context: Option<nat>
    var tagList: TagList

    constructor (context: Option<nat>)
      ensures this.context == context && fresh(tagList) && tagList.tagList == []
    {
      this.context := context;
      tagList := new TagList([]);
    }

    method CastIn(s: Schema, v: Value) returns (ok: bool)
      modifies this
      ensures ok <==> Complete(s, v)
      ensures ok ==> fresh(tagList) && tagList.tagList == Wrap(context, S.Encode(s, v))
      ensures !ok ==> tagList == old(tagList)
    {
      var tags := Open(context);
      var inner := EncodeValue(s, v);
      if inner.Err? {
        return false;
      }
      tags.Extend(inner.value);
      if context.Some? { tags.Append(Tag(CLOSING, context.value, [])); }
      tagList := tags;
      ok := true;
    }

    /** The element keeps its own tags. */
    method CastOut(s: Schema, nullAllowed: bool) returns (r: Result<Value>)
      ensures r == CastOutOf(context, tagList.tagList, s, nullAllowed)
    {
      var copy := new TagList(tagList.tagList);
      var begun := PopOpening(context, copy);
      if !begun {
        return Err(InvalidTag);
      }
      var tag := copy.Peek();
      if nullAllowed && tag.None? {
        return Err(AttributeError);
      }
      if nullAllowed && tag.value.cls == APPLICATION && tag.value.number == NULL {
        r := PopAtomic(NULL, None, copy);
      } else {
        r := DecodeValue(s, copy);
      }
      if r.Ok? && context.Some? {
        tag := copy.Peek();
        if tag.None? || tag.value.cls != CLOSING || tag.value.number != context.value {
          r := Err(InvalidTag);
        }
      }
    }
  }
}
