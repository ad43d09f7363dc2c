/** The filter backend that picks a filterset per action
    (drf_multiple_settings/filter_backends/django_filters.py). */
module DjangoFilters {
  import opened Resolution

  /** `FilterBackend.get_filterset_class(view, queryset)`.
      `filtersetClasses` is the view's `filterset_classes` attribute (`None`
      when the view does not declare it), `action` its `action` attribute,
      and `inherited` what `DjangoFilterBackend.get_filterset_class(view,
      queryset)` returns. The result is never an exception: every lookup
      failure falls back to the inherited filterset. */
  function GetFiltersetClass<F>(filtersetClasses: Option<Value<F>>, action: Option<string>, inherited: F): (r: F)
    ensures action.Some? && filtersetClasses.Some? && filtersetClasses.value.Mapping?
            && action.value in filtersetClasses.value.entries
            ==> r == filtersetClasses.value.entries[action.value]
    ensures !(action.Some? && filtersetClasses.Some? && filtersetClasses.value.Mapping?
              && action.value in filtersetClasses.value.entries)
            ==> r == inherited
  {
    match Resolve(filtersetClasses, NoneValue, action)
    case Some(f) => f
    case None => inherited
  }

  /** A view without `filterset_classes` gets the inherited filterset:
      `getattr` yields `None`, subscripting `None` raises `TypeError`. */
  lemma UndeclaredFallsBack<F>(action: Option<string>, inherited: F)
    ensures GetFiltersetClass(None, action, inherited) == inherited
  {
  }

  /** The same view served for two actions: the registered one gets its own
      filterset, the unregistered one the inherited default. */
  lemma TwoActions<F>(m: map<string, F>, registered: string, other: string, inherited: F)
    requires registered in m && other !in m
    ensures GetFiltersetClass(Some(Mapping(m)), Some(registered), inherited) == m[registered]
    ensures GetFiltersetClass(Some(Mapping(m)), Some(other), inherited) == inherited
  {
  }
}
