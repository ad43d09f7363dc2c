/** The action-keyed lookup that every resolver of the package performs:
    `container[view.action]`, where `container` is a per-action dictionary
    read from the view (or a default) and `view.action` is the name of the
    action being served. Python signals the ways this can go wrong with
    exceptions; here they are values. */
module Resolution {

  datatype Option<+T> = None | Some(value: T) {
    /** Python's `getattr(obj, name, default)`: the attribute if present. */
    function GetOr(default: T): T {
      match this
      case Some(v) => v
      case None => default
    }
  }

  /** What a per-action attribute can hold: `None`, a dictionary keyed by
      action name, or some other object that cannot be subscripted by a
      string (a list, a string, a class). */
  datatype Value<+V> = NoneValue | Mapping(entries: map<string, V>) | NotSubscriptable

  /** The outcome of evaluating `container[view.action]`. */
  datatype Lookup<+V> =
    | Found(value: V)
    | AttributeErr   // the view has no `action` attribute
    | KeyErr         // the dictionary has no entry for the action
    | TypeErr        // the container cannot be subscripted

  /** Python evaluates the container, then `view.action`, then the
      subscript: a missing `action` is reported before anything about the
      container, `None` and non-dictionaries raise `TypeError`, and a
      dictionary without the key raises `KeyError`. */
  function Subscript<V>(container: Value<V>, action: Option<string>): (r: Lookup<V>)
    ensures r.AttributeErr? <==> action.None?
    ensures r.TypeErr? <==> action.Some? && !container.Mapping?
    ensures r.KeyErr? <==> action.Some? && container.Mapping? && action.value !in container.entries
    ensures r.Found? <==> action.Some? && container.Mapping? && action.value in container.entries
    ensures r.Found? ==> r.value == container.entries[action.value]
  {
    match action
    case None => AttributeErr
    case Some(a) =>
      match container
      case Mapping(m) => if a in m then Found(m[a]) else KeyErr
      case _ => TypeErr
  }

  /** The recoverable resolution shared by the filter and ordering channels,
      `getattr(view, name, default)[view.action]` inside a `try` that catches
      all three exceptions: a hit, or `None` (a miss) whatever the cause --
      an undeclared or `None` attribute, a non-dictionary, an absent key or
      an absent action. */
  function Resolve<V>(attribute: Option<Value<V>>, default: Value<V>, action: Option<string>): (r: Option<V>)
    ensures r.Some? <==> action.Some? && attribute.GetOr(default).Mapping?
                         && action.value in attribute.GetOr(default).entries
    ensures r.Some? ==> r.value == attribute.GetOr(default).entries[action.value]
  {
    match Subscript(attribute.GetOr(default), action)
    case Found(v) => Some(v)
    case _ => None
  }
}
