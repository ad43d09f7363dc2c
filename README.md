# drf-multiple-settings, modelled in Dafny

drf-multiple-settings lets one Django REST Framework viewset carry different
settings for each of its actions (`list`, `retrieve`, ...). Each setting is a
dictionary keyed by action name: `serializer_classes`, `filterset_classes`,
`ordering_fields_set` and `ordering_set`. For each request the package looks
up the current `view.action` in the right dictionary. A hit uses the
registered value. A miss falls back silently to the single-setting
behaviour of the parent class, or raises `ViewConfigurationError`
(serializers). For filtering the parent is django-filter's
`DjangoFilterBackend`; for ordering it is Django REST Framework's
`OrderingFilter`.

The model is pure: every resolver is a Dafny function over datatypes.

- `resolution.dfy` (module `Resolution`) holds the lookup the resolvers share.
  Python's `container[view.action]` becomes `Subscript`, which returns the
  value found or the exception raised (`AttributeError`, `KeyError`,
  `TypeError`). `getattr(view, name, default)` becomes `Option.GetOr`. The
  catch-all-three form becomes `Resolve`.
- `pytext.dfy` (module `PyText`) models `str.split(sep)` and `tuple(s)` on a
  string.
- `viewsets.dfy` (module `Viewsets`) holds:
  - the two channels of `MultipleSettingsOrderingFilter`;
  - `get_serializer_class`;
  - `get_response`.
- `django_filters.dfy` (module `DjangoFilters`) holds
  `FilterBackend.get_filterset_class`.

Django REST Framework, django-filter and Django are passed in as parameters,
never specified. That covers the inherited `super()` results (django-filter's
`DjangoFilterBackend.get_filterset_class`, Django REST Framework's
`OrderingFilter.get_valid_fields` and `get_default_ordering`), `str.title`,
`paginate_queryset`, the serializer and `get_paginated_response`. Model
introspection enters as a `QuerysetMeta` value holding the model's fields and
the query's annotation names. A view attribute the view does not declare is
`None` in the `Option`. A view without an `action` attribute has action
`Option.None`.

Three behaviours of the code worth noting:

- The wildcard's annotation label is `key.title().split('__')`. That is a
  list of pieces, such as `['Total_Count']` for `total_count`
  (`AnnotationLabelPieces`).
- When the view has an `action`, a `serializer_classes` value that is not
  `None` and cannot be subscripted (a list, say) raises `TypeError`. `get_serializer_class` does not catch it,
  so it escapes as a `TypeError` (`RaisesTypeError`).
- A registered `ordering_fields_set` value that is a string other than
  `'__all__'` is iterated character by character (`GetValidFields`).

Every resolver is a function of its arguments, so two calls with the same
dictionaries and action give the same result.

## Model

| member | source | states |
|---|---|---|
| `Resolution.Subscript` | drf_multiple_settings/filter_backends/django_filters.py:18 | `container[view.action]` returns the registered value exactly when the action exists and is a key of a dictionary; otherwise it raises `AttributeError` (no action, checked first), `TypeError` (`None` or a non-dictionary) or `KeyError` (key absent), each in exactly its own case |
| `Resolution.Resolve` | drf_multiple_settings/filter_backends/django_filters.py:16-20 | the `getattr`-then-subscript lookup under `except (AttributeError, KeyError, TypeError)` hits exactly when the attribute (or its default) is a dictionary holding the action, returning that entry; every other cause is the same miss |
| `DjangoFilters.GetFiltersetClass` | drf_multiple_settings/filter_backends/django_filters.py:15-21 | a registered action gets exactly its filterset; in every other case (no attribute, `None`, not subscriptable, key absent, no `action`) the result is the inherited `get_filterset_class(view, queryset)`; no exception escapes |
| `DjangoFilters.UndeclaredFallsBack` | drf_multiple_settings/filter_backends/django_filters.py:17-20 | a view without `filterset_classes` gets the inherited filterset, whatever its action |
| `DjangoFilters.TwoActions` | drf_multiple_settings/filter_backends/django_filters.py:17-21 | on one view, a registered action gets its own filterset and an unregistered one the inherited default |
| `PyText.Split` | drf_multiple_settings/viewsets.py:45 | `split('__')` yields at least one piece, the first piece is a prefix of the input, and joining the pieces with the separator gives back the input |
| `PyText.SplitCutsLeftmost` | drf_multiple_settings/viewsets.py:45 | `split` cuts at the leftmost occurrence: the first piece holds no occurrence of the separator, and when there is a second piece the separator starts right after the first |
| `PyText.SplitContinues` | drf_multiple_settings/viewsets.py:45 | after the first cut, `split` goes on splitting the text that follows the separator, so with `SplitCutsLeftmost` every cut is at the leftmost occurrence not yet consumed |
| `PyText.SplitPiecesFree` | drf_multiple_settings/viewsets.py:45 | no piece produced by `split` contains the separator |
| `PyText.SplitWithoutSeparator` | drf_multiple_settings/viewsets.py:45 | a string without the separator splits into the one-element list of itself |
| `PyText.Characters` | drf_multiple_settings/viewsets.py:63 | `tuple(s)` has one element per character, element `i` being the one-character string `s[i]` |
| `PyText.CharactersConcat` | drf_multiple_settings/viewsets.py:63 | concatenating the elements of `tuple(s)` gives `s` back |
| `Viewsets.Iterate` | drf_multiple_settings/viewsets.py:49-51 | iterating a value fails (`TypeError`) exactly for non-iterables; a list yields its items, and a string yields one one-character string per character |
| `Viewsets.Normalize` | drf_multiple_settings/viewsets.py:49-52 | normalisation keeps length and order, maps each string item `n` to `(n, n)` and passes every other item through unchanged |
| `Viewsets.FieldEntries` | drf_multiple_settings/viewsets.py:41-43 | one `(name, verbose_name)` pair per model field, in declaration order |
| `Viewsets.AnnotationEntries` | drf_multiple_settings/viewsets.py:44-47 | one pair per annotation, in order, keyed by the annotation name and labelled `title(name).split('__')` |
| `Viewsets.AnnotationLabelPieces` | drf_multiple_settings/viewsets.py:45 | an annotation label is a list of pieces that joins back to the title-cased name, and is the one-element list of it when the name holds no `'__'` |
| `Viewsets.Wildcard` | drf_multiple_settings/viewsets.py:39-47 | `'__all__'` expands to len(fields) + len(annotations) pairs: each model field's `(name, verbose_name)` first, in declaration order, then each annotation's pair, in order |
| `Viewsets.GetValidFields` | drf_multiple_settings/viewsets.py:34-56 | a hit on `'__all__'` gives the wildcard expansion; a hit on a list keeps length and order, pairing each string `n` as `(n, n)` and passing other items through; a hit on another string gives one `(c, c)` pair per character; every failure (no dictionary in `ordering_fields_set` or in the filter's `ordering_fields`, no key, no `action`, a value that cannot be iterated, a queryset that cannot be introspected) gives the inherited result unchanged |
| `Viewsets.GetDefaultOrdering` | drf_multiple_settings/viewsets.py:58-66 | a registered string `s` becomes len(s) one-character keys that spell `s`; a registered non-string comes back unchanged; no `ordering_set`, no key or no `action` gives the inherited `get_default_ordering` |
| `Viewsets.DefaultOrderingSplitsFieldName` | drf_multiple_settings/viewsets.py:62-63 | `'-id'` registered for `list` yields the keys `'-'`, `'i'`, `'d'` and not the single key `'-id'` |
| `Viewsets.IntendedDefaultOrdering` | drf_multiple_settings/viewsets.py:62-63 | with the correction, a registered string `s` is the one-key tuple `(s,)`, and every other case agrees with the code as written |
| `Viewsets.GetSerializerClass` | drf_multiple_settings/viewsets.py:107-121 | returns a value exactly when the action is registered, and then that exact value (never a default); `None` raises `ViewConfigurationError` naming the class; no `action` raises it naming the class; an unregistered action raises it naming the class and the action; a non-subscriptable value lets `TypeError` escape |
| `Viewsets.GetResponse` | drf_multiple_settings/viewsets.py:144-150 | with a serializer class selected, a page gives the paginated response of the serialized page and no page a plain response of the serialized data, `many` passed on both; a failed selection fails the rendering with the same error on both paths |
| `Viewsets.ResponsePassesManyThrough` | drf_multiple_settings/viewsets.py:146-149 | `many` reaches the serializer unchanged on both paths: serializers that agree at `many` render the same response |
| `Viewsets.SingleUnpaginatedItem` | drf_multiple_settings/viewsets.py:149-150 | an unpaginated single item (`many=False`) is rendered as its serialized form, not wrapped |

## Left out

- `ReadOnlyModelMultipleSettingsViewSet` and `ModelMultipleSettingsViewSet` (drf_multiple_settings/viewsets.py:153-172) only combine Django REST Framework mixins and have no logic of their own.
- The behaviour of Django REST Framework, django-filter and Django is not specified. This covers django-filter's inherited `DjangoFilterBackend.get_filterset_class`, Django REST Framework's inherited `get_valid_fields` and `get_default_ordering`, `paginate_queryset`, the serializer, `get_paginated_response` and `Response`. Each is an opaque value or function parameter, and exceptions raised inside them are not modelled.
- Model introspection is not modelled. `queryset.model._meta.fields` and `queryset.query.annotations` enter as sequences. A queryset lacking them (an `AttributeError`, which is caught) is `None`.
- `str.title` is Unicode-aware and is a parameter. Only `split('__')` on its result is modelled.
- `isinstance(x, six.string_types)` is a datatype constructor test (`FieldName`, `Text`, `OrderingText`).
- Python objects other than strings, dictionaries and lists are reduced to opaque type parameters. Dictionaries with non-string keys, objects whose `__getitem__` or `__eq__` behave unusually, and iterating a dictionary (which yields its keys) are not modelled.
- Django REST Framework sets `action = None` on requests it cannot route. That value is not a key of any string-keyed dictionary, so it behaves like an unregistered action (`KeyError`) and is not a separate case. In `get_serializer_class` the resulting `ViewConfigurationError` names `None` as the action (drf_multiple_settings/viewsets.py:120-121); the model's `ActionNotRegistered` carries a string, so there it stands for `None` with an arbitrary unregistered name.
- The error message text is not modelled, only which view class and action `ViewConfigurationError` carries. The text at drf_multiple_settings/viewsets.py:110 names `get_queryset()` where `get_serializer_class()` is meant.
- The `context={}` default of `get_valid_fields` is not modelled: it is only forwarded to the inherited method and is never mutated.
- setup.py is packaging metadata and is not modelled.
- Sharing class-level dictionaries across concurrent requests is not modelled, because nothing mutates them.

## Findings

| source | as written | input that shows it | evidently intended | confidence | as-written member | corrected member |
|---|---|---|---|---|---|---|
| drf_multiple_settings/viewsets.py:62-63 | a string default ordering is returned as `tuple(ordering)`, its characters | `ordering_set = {'list': '-id'}` gives `('-', 'i', 'd')`, three bogus ordering keys | `(ordering,)`, the one-key tuple that the inherited `OrderingFilter.get_default_ordering` builds from a string | not executed; high | `Viewsets.DefaultOrderingSplitsFieldName` | `Viewsets.IntendedDefaultOrdering` |
