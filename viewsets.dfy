/** The per-action settings of drf_multiple_settings/viewsets.py: the
    ordering filter's two channels (valid fields and default ordering), the
    mandatory serializer selection, and the response rendering built on it.
    Django REST Framework itself (the inherited methods, the paginator, the
    serializer) enters as opaque values and functions. */
module Viewsets {
  import opened Resolution
  import PyText

  // ---------------------------------------------------------------------
  // Ordering filter: valid fields
  // ---------------------------------------------------------------------

  /** The wildcard value of an `ordering_fields_set` entry. */
  const AllFields: string := "__all__"

  /** The separator the annotation label is split on. */
  const LookupSeparator: string := "__"

  /** An item of a concrete valid-fields value: a bare field name, or any
      other object (typically a `(name, label)` tuple) of type `O`. */
  datatype Item<+O> = FieldName(name: string) | OtherItem(item: O)

  /** An `ordering_fields_set` entry: a string (the wildcard or not), an
      iterable of items, or an object that cannot be iterated (`None`, a
      number). */
  datatype FieldsValue<+O> = Text(text: string) | Items(items: seq<Item<O>>) | NotIterable

  /** The second half of a `(name, label)` pair. */
  datatype Label = LabelText(text: string) | LabelParts(parts: seq<string>)

  /** A `(name, label)` tuple built by the filter. */
  datatype FieldPair = FieldPair(key: string, display: Label)

  /** One entry of the list `get_valid_fields` returns: a pair it built, or
      an item of the registered value passed through as it was. */
  datatype Entry<+O> = Built(pair: FieldPair) | PassedThrough(item: O)

  /** A concrete model field as `_meta.fields` lists it. */
  datatype ModelField = ModelField(name: string, verboseName: string)

  /** What the wildcard expansion reads from the queryset: the model's
      fields in declaration order and the names of the query's annotations
      in insertion order. */
  datatype QuerysetMeta = QuerysetMeta(fields: seq<ModelField>, annotations: seq<string>)

  /** Python's `for item in value`: the characters of a string (each a
      one-character string), the items of an iterable, or `TypeError`. */
  function Iterate<O>(value: FieldsValue<O>): (r: Option<seq<Item<O>>>)
    ensures r.None? <==> value.NotIterable?
    ensures value.Items? ==> r == Some(value.items)
    ensures value.Text? ==> r.Some? && |r.value| == |value.text|
                            && forall i :: 0 <= i < |r.value| ==> r.value[i] == FieldName([value.text[i]])
  {
    match value
    case Text(s) => Some(seq(|s|, i requires 0 <= i < |s| => FieldName([s[i]])))
    case Items(xs) => Some(xs)
    case NotIterable => None
  }

  /** `[(item, item) if isinstance(item, str) else item for item in items]`. */
  function Normalize<O>(items: seq<Item<O>>): (r: seq<Entry<O>>)
    ensures |r| == |items|
    ensures forall i :: 0 <= i < |items| && items[i].FieldName? ==>
              r[i] == Built(FieldPair(items[i].name, LabelText(items[i].name)))
    ensures forall i :: 0 <= i < |items| && items[i].OtherItem? ==>
              r[i] == PassedThrough(items[i].item)
  {
    if items == [] then []
    else
      var head := match items[0]
        case FieldName(n) => Built(FieldPair(n, LabelText(n)))
        case OtherItem(o) => PassedThrough(o);
      [head] + Normalize(items[1..])
  }

  /** `[(field.name, field.verbose_name) for field in fields]`. */
  function FieldEntries(fields: seq<ModelField>): (r: seq<FieldPair>)
    ensures |r| == |fields|
    ensures forall i :: 0 <= i < |fields| ==> r[i] == FieldPair(fields[i].name, LabelText(fields[i].verboseName))
  {
    if fields == [] then [] else [FieldPair(fields[0].name, LabelText(fields[0].verboseName))] + FieldEntries(fields[1..])
  }

  /** The label of an annotation: `key.title().split('__')`, with
      `str.title` given as `title`. */
  function AnnotationLabel(key: string, title: string -> string): Label {
    LabelParts(PyText.Split(title(key), LookupSeparator))
  }

  /** `[(key, key.title().split('__')) for key in annotations]`. */
  function AnnotationEntries(annotations: seq<string>, title: string -> string): (r: seq<FieldPair>)
    ensures |r| == |annotations|
    ensures forall i :: 0 <= i < |annotations| ==> r[i] == FieldPair(annotations[i], AnnotationLabel(annotations[i], title))
  {
    if annotations == [] then []
    else [FieldPair(annotations[0], AnnotationLabel(annotations[0], title))] + AnnotationEntries(annotations[1..], title)
  }

  /** The expansion of `'__all__'`: every model field, in declaration order,
      labelled with its verbose name, then every annotation, in order,
      labelled with the pieces of its title-cased name; nothing else. */
  function Wildcard(queryset: QuerysetMeta, title: string -> string): (r: seq<FieldPair>)
    ensures |r| == |queryset.fields| + |queryset.annotations|
    ensures forall i :: 0 <= i < |queryset.fields| ==>
              r[i] == FieldPair(queryset.fields[i].name, LabelText(queryset.fields[i].verboseName))
    ensures forall j :: 0 <= j < |queryset.annotations| ==>
              r[|queryset.fields| + j] == FieldPair(queryset.annotations[j], AnnotationLabel(queryset.annotations[j], title))
  {
    FieldEntries(queryset.fields) + AnnotationEntries(queryset.annotations, title)
  }

  /** An annotation label joins back to the title-cased name, and when that
      name holds no `'__'` the label is the one-element list of it: the
      label is a list, never a spaced phrase. */
  lemma {:induction false} AnnotationLabelPieces(key: string, title: string -> string)
    ensures AnnotationLabel(key, title).LabelParts?
    ensures PyText.Join(AnnotationLabel(key, title).parts, LookupSeparator) == title(key)
    ensures !PyText.Contains(title(key), LookupSeparator) ==> AnnotationLabel(key, title).parts == [title(key)]
  {
    if !PyText.Contains(title(key), LookupSeparator) {
      PyText.SplitWithoutSeparator(title(key), LookupSeparator);
    }
  }

  /** `MultipleSettingsOrderingFilter.get_valid_fields(queryset, view)`.
      `orderingFieldsSet` is the view's `ordering_fields_set` attribute
      (`None` when undeclared), `filterOrderingFields` the filter's own
      `ordering_fields` (the `getattr` default), `queryset` the queryset
      (`None` when it has no `model`/`query` to introspect), `title` is
      `str.title`, and `inherited` what `OrderingFilter.get_valid_fields`
      returns. */
  function GetValidFields<O>(orderingFieldsSet: Option<Value<FieldsValue<O>>>, filterOrderingFields: Value<FieldsValue<O>>,
                             action: Option<string>, queryset: Option<QuerysetMeta>, title: string -> string,
                             inherited: seq<Entry<O>>): (r: seq<Entry<O>>)
    // every failure gives the inherited result unchanged: no dictionary
    // (neither `ordering_fields_set` nor the filter's `ordering_fields`),
    // no key, no `action`, a value that cannot be iterated, or a wildcard
    // over a queryset that cannot be introspected
    ensures var container := orderingFieldsSet.GetOr(filterOrderingFields);
      (|| action.None?
       || !container.Mapping?
       || action.value !in container.entries
       || container.entries[action.value].NotIterable?
       || (container.entries[action.value] == Text(AllFields) && queryset.None?))
      ==> r == inherited
    // `'__all__'` expands to the wildcard, in its order
    ensures var v := Resolve(orderingFieldsSet, filterOrderingFields, action);
      v == Some(Text(AllFields)) && queryset.Some? ==>
        |r| == |Wildcard(queryset.value, title)|
        && forall i :: 0 <= i < |r| ==> r[i] == Built(Wildcard(queryset.value, title)[i])
    // a list keeps length and order: `(n, n)` for a name, other items as they are
    ensures var v := Resolve(orderingFieldsSet, filterOrderingFields, action);
      v.Some? && v.value.Items? ==>
        && |r| == |v.value.items|
        && (forall i :: 0 <= i < |r| && v.value.items[i].FieldName? ==>
              r[i] == Built(FieldPair(v.value.items[i].name, LabelText(v.value.items[i].name))))
        && (forall i :: 0 <= i < |r| && v.value.items[i].OtherItem? ==> r[i] == PassedThrough(v.value.items[i].item))
    // any other string is iterated: one `(c, c)` pair per character
    ensures var v := Resolve(orderingFieldsSet, filterOrderingFields, action);
      v.Some? && v.value.Text? && v.value.text != AllFields ==>
        && |r| == |v.value.text|
        && forall i :: 0 <= i < |r| ==> r[i] == Built(FieldPair([v.value.text[i]], LabelText([v.value.text[i]])))
  {
    match Resolve(orderingFieldsSet, filterOrderingFields, action)
    case None => inherited
    case Some(value) =>
      if value.Text? && value.text == AllFields then
        match queryset
        case None => inherited
        case Some(q) =>
          var w := Wildcard(q, title);
          seq(|w|, i requires 0 <= i < |w| => Built(w[i]))
      else
        match Iterate(value)
        case None => inherited
        case Some(items) => Normalize(items)
  }

  // ---------------------------------------------------------------------
  // Ordering filter: default ordering
  // ---------------------------------------------------------------------

  /** An `ordering_set` entry: a string, or anything else (a tuple or list
      of field names, `None`), of type `D`. */
  datatype OrderingValue<+D> = OrderingText(text: string) | OrderingOther(value: D)

  /** What `get_default_ordering` returns: a tuple of field names, a
      registered non-string value unchanged, or the inherited default
      (`OrderingFilter.get_default_ordering(view)`, of type `B`). */
  datatype DefaultOrdering<+D, +B> = Keys(keys: seq<string>) | AsRegistered(value: D) | Inherited(base: B)

  /** `MultipleSettingsOrderingFilter.get_default_ordering(view)` as written:
      a registered string `s` becomes `tuple(s)`, that is `|s|`
      one-character keys that spell `s`; a registered non-string is
      returned unchanged; an undeclared `ordering_set`, an unregistered
      action or a view without `action` yields the inherited default. */
  function GetDefaultOrdering<D, B>(orderingSet: Option<Value<OrderingValue<D>>>, action: Option<string>, inherited: B)
    : (r: DefaultOrdering<D, B>)
    ensures var v := Resolve(orderingSet, NoneValue, action);
      v.None? ==> r == Inherited(inherited)
    ensures var v := Resolve(orderingSet, NoneValue, action);
      v.Some? && v.value.OrderingOther? ==> r == AsRegistered(v.value.value)
    ensures var v := Resolve(orderingSet, NoneValue, action);
      v.Some? && v.value.OrderingText? ==>
        var s := v.value.text;
        && r.Keys? && |r.keys| == |s| && PyText.Concat(r.keys) == s
        && forall i :: 0 <= i < |s| ==> r.keys[i] == [s[i]]
  {
    match Resolve(orderingSet, NoneValue, action)
    case None => Inherited(inherited)
    case Some(value) =>
      match value
      case OrderingText(s) => PyText.CharactersConcat(s); Keys(PyText.Characters(s))
      case OrderingOther(d) => AsRegistered(d)
  }

  /** The defect: `'-id'` registered for `list` becomes the three keys
      `'-'`, `'i'`, `'d'` rather than the one key `'-id'`. */
  lemma DefaultOrderingSplitsFieldName<D, B>(inherited: B)
    ensures GetDefaultOrdering<D, B>(Some(Mapping(map["list" := OrderingText("-id")])), Some("list"), inherited)
            == Keys(["-", "i", "d"])
    ensures GetDefaultOrdering<D, B>(Some(Mapping(map["list" := OrderingText("-id")])), Some("list"), inherited)
            != Keys(["-id"])
  {
    assert PyText.Characters("-id") == ["-", "i", "d"];
  }

  /** The evidently intended default ordering, as the inherited
      `OrderingFilter.get_default_ordering` treats a string: `(ordering,)`,
      one key naming the whole field. Every case other than a registered
      string agrees with the code as written. */
  function IntendedDefaultOrdering<D, B>(orderingSet: Option<Value<OrderingValue<D>>>, action: Option<string>, inherited: B)
    : (r: DefaultOrdering<D, B>)
    ensures var v := Resolve(orderingSet, NoneValue, action);
      v.Some? && v.value.OrderingText? ==> r == Keys([v.value.text])
    ensures var v := Resolve(orderingSet, NoneValue, action);
      !(v.Some? && v.value.OrderingText?) ==> r == GetDefaultOrdering(orderingSet, action, inherited)
  {
    match Resolve(orderingSet, NoneValue, action)
    case None => Inherited(inherited)
    case Some(value) =>
      match value
      case OrderingText(s) => Keys([s])
      case OrderingOther(d) => AsRegistered(d)
  }

  // ---------------------------------------------------------------------
  // Serializer selection
  // ---------------------------------------------------------------------

  /** Why a `ViewConfigurationError` was raised. */
  datatype Cause =
    | SerializerClassesUnset         // `serializer_classes` is None
    | ActionUnavailable              // the view has no `action` attribute
    | ActionNotRegistered(action: string)

  /** `ViewConfigurationError`, naming the view class and the cause. */
  datatype ViewConfigurationError = ViewConfigurationError(viewName: string, cause: Cause)

  /** A call that returns a value, raises `ViewConfigurationError`, or lets
      a `TypeError` escape. */
  datatype Outcome<+T> = Returns(value: T) | Raises(error: ViewConfigurationError) | RaisesTypeError

  /** `GenericMultipleSettingsViewSet.get_serializer_class()`, for a view
      whose class is named `viewName`. `serializerClasses` is always
      present: the class declares it, defaulting to `None`. */
  function GetSerializerClass<S>(viewName: string, serializerClasses: Value<S>, action: Option<string>): (r: Outcome<S>)
    // never a fallback: a value returned is the one registered for the action
    ensures r.Returns? <==> action.Some? && serializerClasses.Mapping? && action.value in serializerClasses.entries
    ensures r.Returns? ==> r.value == serializerClasses.entries[action.value]
    // the three configuration errors, each naming the view class
    ensures r.Raises? ==> r.error.viewName == viewName
    ensures serializerClasses.NoneValue? ==> r == Raises(ViewConfigurationError(viewName, SerializerClassesUnset))
    ensures !serializerClasses.NoneValue? && action.None?
            ==> r == Raises(ViewConfigurationError(viewName, ActionUnavailable))
    ensures serializerClasses.Mapping? && action.Some? && action.value !in serializerClasses.entries
            ==> r == Raises(ViewConfigurationError(viewName, ActionNotRegistered(action.value)))
    // a `TypeError` is not caught
    ensures r.RaisesTypeError? <==> serializerClasses.NotSubscriptable? && action.Some?
  {
    if serializerClasses.NoneValue? then Raises(ViewConfigurationError(viewName, SerializerClassesUnset))
    else
      match Subscript(serializerClasses, action)
      case Found(s) => Returns(s)
      case AttributeErr => Raises(ViewConfigurationError(viewName, ActionUnavailable))
      case KeyErr => Raises(ViewConfigurationError(viewName, ActionNotRegistered(action.value)))
      case TypeErr => RaisesTypeError
  }

  // ---------------------------------------------------------------------
  // Response rendering
  // ---------------------------------------------------------------------

  /** A `Response`: the paginator's envelope (of type `R`) around the
      serialized page, or the serialized data (of type `T`) as it is. */
  datatype Response<+T, +R> = PaginatedResponse(envelope: R) | PlainResponse(data: T)

  /** `GenericMultipleSettingsViewSet.get_response(data, many)`.
      `paginate` is `paginate_queryset` (`None` when pagination is off),
      `serialize(cls, x, many)` is `cls(x, many=many).data` for the class
      `get_serializer` obtains from `get_serializer_class()`, and
      `paginated` is `get_paginated_response`. */
  function GetResponse<S, D, T, R>(viewName: string, serializerClasses: Value<S>, action: Option<string>,
                                   data: D, many: bool, paginate: D -> Option<D>,
                                   serialize: (S, D, bool) -> T, paginated: T -> R): (r: Outcome<Response<T, R>>)
    // with a serializer class selected: a page gives the paginated response
    // of the serialized page, no page a plain response of the serialized data
    ensures var sel := GetSerializerClass(viewName, serializerClasses, action);
      sel.Returns? && paginate(data).Some? ==>
        r == Returns(PaginatedResponse(paginated(serialize(sel.value, paginate(data).value, many))))
    ensures var sel := GetSerializerClass(viewName, serializerClasses, action);
      sel.Returns? && paginate(data).None? ==> r == Returns(PlainResponse(serialize(sel.value, data, many)))
    // a failed selection fails the rendering the same way on both paths
    ensures var sel := GetSerializerClass(viewName, serializerClasses, action);
      !sel.Returns? ==> (r.Raises? <==> sel.Raises?) && (sel.Raises? ==> r.error == sel.error)
                        && (r.RaisesTypeError? <==> sel.RaisesTypeError?)
  {
    var page := paginate(data);
    match GetSerializerClass(viewName, serializerClasses, action)
    case Raises(e) => Raises(e)
    case RaisesTypeError => RaisesTypeError
    case Returns(cls) =>
      match page
      case Some(p) => Returns(PaginatedResponse(paginated(serialize(cls, p, many))))
      case None => Returns(PlainResponse(serialize(cls, data, many)))
  }

  /** `many` reaches the serializer unchanged: two serializers that agree
      whenever they are given `many` render the same response. */
  lemma ResponsePassesManyThrough<S, D, T, R>(viewName: string, serializerClasses: Value<S>, action: Option<string>,
                                              data: D, many: bool, paginate: D -> Option<D>,
                                              serialize1: (S, D, bool) -> T, serialize2: (S, D, bool) -> T,
                                              paginated: T -> R)
    requires forall cls, x :: serialize1(cls, x, many) == serialize2(cls, x, many)
    ensures GetResponse(viewName, serializerClasses, action, data, many, paginate, serialize1, paginated)
            == GetResponse(viewName, serializerClasses, action, data, many, paginate, serialize2, paginated)
  {
    var sel := GetSerializerClass(viewName, serializerClasses, action);
    if sel.Returns? {
      match paginate(data)
      case Some(p) =>
        assert serialize1(sel.value, p, many) == serialize2(sel.value, p, many);
      case None =>
        assert serialize1(sel.value, data, many) == serialize2(sel.value, data, many);
    }
  }

  /** A single item that is not paginated is rendered as its serialized
      form itself, not wrapped in a list or an envelope. */
  lemma SingleUnpaginatedItem<S, D, T, R>(viewName: string, m: map<string, S>, a: string, item: D,
                                          paginate: D -> Option<D>, serialize: (S, D, bool) -> T, paginated: T -> R)
    requires a in m && paginate(item).None?
    ensures GetResponse(viewName, Mapping(m), Some(a), item, false, paginate, serialize, paginated)
            == Returns(PlainResponse(serialize(m[a], item, false)))
  {
  }
}
