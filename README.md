# pyPolarionCli search: the attribute flattener, in Dafny

`pyPolarionCli search` runs a query against a Polarion project and writes the
matching work items to `<folder>/<project>_search_results.json`. In the two
flattening modes (`--full` and `--field`) each work item is turned into a
JSON-ready dict by a small recursive engine in `src/pyPolarionCli/cmd_search.py`:

- `_parse_attributes_recursively` classifies one value and stores exactly one
  entry, `output_dict[key]`. A date becomes its `isoformat()` text. A list is
  rebuilt element by element. An object with `__dict__` becomes a nested dict.
  Anything else is kept as it is. A list that directly holds a list raises
  `RuntimeWarning("List in List")`.
- `_handle_object_with_dict` builds a fresh dict for an object. It walks every
  attribute group of the object, ignoring the group's name. Every inner key
  lands in that one dict, and the last write wins.
- `_parse_nested_search_results` does the same for each work item, using
  `_polarion_item` when the item has one. It returns one dict per item, in
  order.
- `_execute` checks its arguments, fetches the project, picks the mode
  (`--full` wins over `--field`, which wins over the default), builds the output
  path, fills the document `{project, query, number_of_results, results}`,
  opens the file for writing and writes `json.dumps` of the document into it.

The model has four modules:

- `Values` (`values.dfy`): Python's run-time probing is replaced by a closed
  datatype, `Value = Scalar | Temporal | List | Obj`. An object is its sequence
  of `Group(name, attrs)`. The output is `Json`. Dates are an opaque type
  `Moment`, and `isoformat` is a function parameter `iso` that nothing inspects.
  `Atom` is a value with no `__dict__` that is neither a date nor a list. The
  flattener copies such a value whole and never looks inside it. `None`,
  booleans, integers and strings have constructors of their own. Every other
  such value (a float, a tuple, a plain dict, a set, `bytes`, a `Decimal`) is
  `Other(renderable)`, where `renderable` says whether `json.dumps` accepts it.
- `OrderedDicts` (`ordered_dict.dfy`): a Python dict is an insertion-ordered
  sequence of pairs with distinct keys. `Put` models `d[k] = v`: it replaces an
  existing key where it stands and otherwise appends. `json.dumps` keeps this
  order. `PyDict` is the dict object that the flattener updates in place.
- `Walker` (`walker.dfy`): functions giving what the flattener computes, plus
  independent descriptions to check them against. `Unsupported` says when the
  flattener raises. `AllAttrs` and `LastOfKey` say which attribute decides
  which key. Lemmas connect the two.
- `CmdSearch` (`cmd_search.dfy`): the source's loops as methods over `PyDict`.
  Each method is proved against the `Walker` functions. `Execute` is proved
  against the status, path, key-order and count rules of `_execute`.
  - `ParseGroups` is the nested group/attribute loop. In the source that loop
    is written out twice: in `_handle_object_with_dict` and in
    `_parse_nested_search_results`.
  - `StoreResults` is the mode branch of `_execute`, taken out as a method of
    its own.

The Polarion client is abstract. `Client.getProject` returns `None` where the
library call raises. `Project.searchWorkitemFullItem` and
`Project.searchWorkitem` are opaque functions from the query (and field list)
to work items. The default search `searchWorkitem(query)` is modelled as
`searchWorkitem(query, None)`, because `None` is the library's default field
list.

Points about the code worth noting:

- A date that is an element of a list is copied as it is (`JMoment`), not
  converted to text. The code converts a date only when it is the value itself.
- `json.dumps` cannot serialise a date object, nor a value such as a set,
  `bytes` or a `Decimal`. When the document holds one (a date listed in a
  flattened attribute, an unrenderable atom copied whole, or such a value
  inside `__values__` in the default mode), `json.dumps` raises `TypeError`. This happens after
  `open(file_path, 'w')` has already created or emptied the file, so
  `_execute` ends with that exception (`Propagated(NotSerializable,
  Some(path))`) and not with `OK`. `Serialisable` says which documents
  `json.dumps` accepts.
- The code has no depth check. An object inside an object becomes a dict
  inside a dict under its key, however deep it sits.
- The flattener has no date-format error. "List in List" is the only
  exception the flattener raises itself.
- The "List in List" exception is not caught in `_execute`. It escapes the
  command (`Propagated(ListInList, None)`) before the file is opened, so no
  file is touched.

## Model

| member | source | states |
|---|---|---|
| `OrderedDicts.Get` | src/pyPolarionCli/cmd_search.py:280 | The read `output_dict["results"]` (and `d.get(k)`): the value of the entry with key `k`, or `None`. It is the definition that `PutGet` and the document lemmas are stated against. |
| `Walker.Walk` | src/pyPolarionCli/cmd_search.py:94-128 | The value `_parse_attributes_recursively` stores under `key`, in its branch order: a date becomes `iso` text, a list is rebuilt, an object becomes its dict, anything else is kept; or "List in List". It is the definition that `ParseAttributesRecursively` and the raise and serialisability lemmas are proved against. |
| `Walker.Element` | src/pyPolarionCli/cmd_search.py:104-114 | What one list element adds to the rebuilt list: an object its dict, a list the exception, anything else (dates included) itself. It is the definition that `WalkElemsPointwise` is stated against. |
| `Walker.WalkElems` | src/pyPolarionCli/cmd_search.py:102-117 | The rebuilt list: each element in order, stopping at the first exception. It is the definition that the list branch of `ParseAttributesRecursively` is proved against. |
| `Walker.Flatten` | src/pyPolarionCli/cmd_search.py:62-79 | The dict `_handle_object_with_dict` returns: `Merge` from the empty dict. It is the definition that `HandleObjectWithDict`, `ParseNestedSearchResults` and `HandleObjectKeys` are proved against. |
| `Walker.Merge` | src/pyPolarionCli/cmd_search.py:72-79 | The outer loop over groups, ignoring their names, storing each group's attributes in turn. It is the definition that `ParseGroups` is proved against. |
| `Walker.MergeAttrs` | src/pyPolarionCli/cmd_search.py:74-78 | The inner loop: each attribute's walked value stored under its key with `Put`, in order, stopping at the first exception. It is the definition that the key and last-write lemmas are proved about. |
| `Walker.Attributes` | src/pyPolarionCli/cmd_search.py:150-153 | The groups an item is flattened from: `_polarion_item`'s when the item has one, else its own. It is the definition that `ParseNestedSearchResults` is proved against. |
| `Walker.Serialisable` | src/pyPolarionCli/cmd_search.py:284 | What `json.dumps` accepts: no date object and no unrenderable atom anywhere inside. It is the definition that the `NotSerializable` outcome of `Execute` and the serialisability lemmas are stated against. |
| `CmdSearch.Selected` | src/pyPolarionCli/cmd_search.py:260-275 | The work items of the chosen search: `searchWorkitemFullItem(query)` for `--full`, otherwise `searchWorkitem(query, field)`. It is the definition that `StoreResults` and `Execute` are proved against. |
| `CmdSearch.PassThrough` | src/pyPolarionCli/cmd_search.py:277 | What the default mode stores for an item: `vars(item).get("__values__")`, `null` when absent. It is the definition that `StoreResults` is proved against. |
| `CmdSearch.Document` | src/pyPolarionCli/cmd_search.py:239-244 | The output document: `project`, `query`, `number_of_results`, `results`, in that order. It is the definition that `DocumentKeys`, the document lemmas and `Execute` are stated against. |
| `OrderedDicts.Put` | src/pyPolarionCli/cmd_search.py:128 | `d[k] = v` on an ordered dict. If `k` is present, the length stays the same, the entry at `k`'s position becomes `(k, v)` and every other entry is unchanged. If `k` is absent, the pair is appended at the end. |
| `OrderedDicts.PutGet` | src/pyPolarionCli/cmd_search.py:128 | After `d[k] = v`, key `k` reads `v`, and every other key reads what it read before. |
| `OrderedDicts.PutKeys` | src/pyPolarionCli/cmd_search.py:128 | After `d[k] = v`, the keys are the old keys plus `k`, and nothing else. |
| `OrderedDicts.PutUnique` | src/pyPolarionCli/cmd_search.py:128 | `d[k] = v` keeps the keys distinct. |
| `OrderedDicts.PyDict.Set` | src/pyPolarionCli/cmd_search.py:128 | The in-place store. The dict's new entries are `Put` of its old entries, and its keys stay distinct. |
| `OrderedDicts.PyDict.Of` | src/pyPolarionCli/cmd_search.py:239-244 | A dict display with distinct keys gives a dict holding exactly those entries, in that order. |
| `Walker.RaisesIffUnsupported` | src/pyPolarionCli/cmd_search.py:101-121 | The walk of a value raises "List in List" exactly when, somewhere it reaches (through object attributes and object elements of lists), a list has a list as a direct element. Both directions are proved, at any depth. |
| `Walker.ElemsRaiseIffBad` | src/pyPolarionCli/cmd_search.py:103-114 | Rebuilding a list raises exactly when some element is a list, or is an object whose flattening raises. |
| `Walker.MergeRaisesIffBad` | src/pyPolarionCli/cmd_search.py:72-79 | Merging an object's groups raises exactly when some attribute value in some group is unsupported, whatever the starting dict. |
| `Walker.AttrsRaiseIffBad` | src/pyPolarionCli/cmd_search.py:74-78 | Storing a group's attributes raises exactly when some attribute value is unsupported. |
| `Walker.WalkElemsPointwise` | src/pyPolarionCli/cmd_search.py:101-117 | A rebuilt list succeeds exactly when every element does. It then has the same length and order as the original. Element `i` is the flattened dict of an object element and a verbatim copy of any other element, dates included. |
| `Walker.ListInListRaises` | src/pyPolarionCli/cmd_search.py:108-110 | A list holding a list as a direct element raises, whatever its other elements are. |
| `Walker.MergeAttrsConcat` | src/pyPolarionCli/cmd_search.py:73-78 | Storing two runs of attributes one after the other is the same as storing their concatenation. An exception in the first run stops everything. |
| `Walker.MergeIsMergeAttrs` | src/pyPolarionCli/cmd_search.py:73-74 | Group boundaries and group names play no part. Merging the groups is the same as storing all their attributes in visiting order. |
| `Walker.MergeAttrsKeys` | src/pyPolarionCli/cmd_search.py:74-78 | After the attributes are stored, the keys are distinct and are exactly the old keys plus the attributes' keys. |
| `Walker.MergeAttrsUntouched` | src/pyPolarionCli/cmd_search.py:74-78 | A key that no attribute carries keeps its old value. |
| `Walker.MergeAttrsLastWins` | src/pyPolarionCli/cmd_search.py:74-78 | Last write wins: the last attribute with a given key decides that key's value, which is what the walk makes of that attribute's value. |
| `Walker.AllAttrsCovers` | src/pyPolarionCli/cmd_search.py:73-74 | Every attribute of every group is among the attributes visited. |
| `Walker.HandleObjectKeys` | src/pyPolarionCli/cmd_search.py:62-79 | The dict `_handle_object_with_dict` returns has distinct keys. They are exactly the inner keys over all groups, and every attribute's key is among them. For each key, the attribute visited last decides the value. |
| `Walker.PutSerialisable` | src/pyPolarionCli/cmd_search.py:128 | Storing a serialisable value into a serialisable dict leaves it serialisable. |
| `Walker.WalkSerialisable` | src/pyPolarionCli/cmd_search.py:97-125 | If the walk of a value succeeds and no list the walk reaches holds a date as an element, and no atom it reaches is unrenderable, the result is serialisable: a top-level date has become text. |
| `Walker.ElemsSerialisable` | src/pyPolarionCli/cmd_search.py:101-117 | A rebuilt list is serialisable when no element is a date or an unrenderable atom, and no object element holds either where the walk reaches. |
| `Walker.MergeSerialisable` | src/pyPolarionCli/cmd_search.py:72-79 | Merging groups that hold neither a listed date nor an unrenderable atom into a serialisable dict gives a serialisable dict. |
| `Walker.AttrsSerialisable` | src/pyPolarionCli/cmd_search.py:74-78 | The same for the attributes of one group. |
| `Walker.ListedDateNotSerialisable` | src/pyPolarionCli/cmd_search.py:113-114 | A list that holds a date as a direct element walks, when it walks at all, to a list that `json.dumps` rejects. |
| `Walker.GroupNameNotKey` | src/pyPolarionCli/cmd_search.py:73 | A group name that no attribute uses as a key never becomes a key of the returned dict. |
| `CmdSearch.ParseAttributesRecursively` | src/pyPolarionCli/cmd_search.py:82-128 | Succeeds exactly when the value is walkable. On success only entry `key` is written, with the walked value; through `Put`, a key already present keeps its position. A date is stored as `iso(date)` and any other scalar unchanged. On "List in List" nothing is written. |
| `CmdSearch.ParseGroups` | src/pyPolarionCli/cmd_search.py:72-79 | The nested loop over groups and their entries. It ends normally exactly when `Merge` of the old entries succeeds, and then leaves exactly `Merge`'s dict. Otherwise it raises "List in List". Keys stay distinct. |
| `CmdSearch.HandleObjectWithDict` | src/pyPolarionCli/cmd_search.py:62-79 | Returns a fresh dict equal to `Flatten` of the object's groups (or the exception), with distinct keys. |
| `CmdSearch.ParseNestedSearchResults` | src/pyPolarionCli/cmd_search.py:131-163 | Succeeds exactly when every work item flattens. The result then has one dict per work item, in input order. Each dict is the group-merge of `_polarion_item` when present, else of the item itself. |
| `CmdSearch.DocumentKeys` | src/pyPolarionCli/cmd_search.py:239-244 | The result document's four keys are distinct. |
| `CmdSearch.DocumentPutResults` | src/pyPolarionCli/cmd_search.py:265-272 | Storing `results` replaces that entry where it stands. The other three entries and the key order are kept. |
| `CmdSearch.DocumentPutCount` | src/pyPolarionCli/cmd_search.py:280 | Storing `number_of_results` replaces that entry where it stands. The other three entries and the key order are kept. |
| `CmdSearch.DocumentGetResults` | src/pyPolarionCli/cmd_search.py:280 | `output_dict["results"]` reads back the results list stored in the document. |
| `CmdSearch.PutAt` | src/pyPolarionCli/cmd_search.py:265-280 | Storing a key that first occurs at position `i` replaces entry `i` and keeps everything before and after it. |
| `CmdSearch.DocumentSerialisable` | src/pyPolarionCli/cmd_search.py:284 | `json.dumps` accepts the document exactly when it accepts every stored result. Both directions are proved. |
| `CmdSearch.ReportsSerialisable` | src/pyPolarionCli/cmd_search.py:260-284 | A document that reports the mode's results for some work items serialises exactly when every item's result does. Both directions are proved. |
| `CmdSearch.RenderableItemsDumpable` | src/pyPolarionCli/cmd_search.py:260-284 | In a flattening mode where no item raises, and no item holds a listed date or an unrenderable atom anywhere the walk reaches, `json.dumps` accepts every result. |
| `CmdSearch.StoreResults` | src/pyPolarionCli/cmd_search.py:260-278 | Picks `--full` over `--field` over the default. It raises exactly when a flattening mode meets an unsupported work item. Otherwise `results` holds one entry per item of the chosen search, in order: the item's flattened dict, or its `__values__` passed through. |
| `CmdSearch.Execute` | src/pyPolarionCli/cmd_search.py:224-289 | An empty project, an empty query or no client gives `ERROR_INVALID_ARGUMENTS` and no file. A failed `getProject` gives `ERROR_SEARCH_FAILED` and no file. "List in List" in a flattening mode escapes before the file is opened. Otherwise the path is `folder + "/" + project + "_search_results.json"`, with `folder` defaulting to `"."`. If some item's result holds a date object or an unrenderable atom, `TypeError` escapes after that file was opened and emptied. If none does, the result is `OK` with one file at that path. The file holds the keys `project`, `query`, `number_of_results`, `results` in that order, `number_of_results` equals the number of results, and there is one result per work item, in order. |

## Left out

- `register` (src/pyPolarionCli/cmd_search.py:166-221) is not modelled, because it only defines command-line arguments. The parsed arguments are the `Args` datatype.
- `src/pyPolarionCli/__main__.py` is not modelled. It does argument parsing, the password/token check, the Polarion login, logging setup and handler lookup, and the statuses `ERROR_ARGPARSE` and `ERROR_LOGIN` belong to it.
- `getProject`, `searchWorkitem` and `searchWorkitemFullItem` are network calls into the client library. They appear only as opaque functions in `Client` and `Project`. The exception `getProject` raises is its `None` result.
- `vars(item).get("__values__")` depends on the client library's internals. The default mode passes it through as an opaque `Json` (`rawValues`), with a missing entry read as `null`.
- `json.dumps(indent=2)`, the file write and logging are library serialisation and I/O. `Execute` returns the path and the serialised document (`FileWrite`) instead of writing. For a document that `json.dumps` rejects it returns the path that `open` emptied (`Propagated(NotSerializable, Some(path))`). The JSON text and its indentation are not modelled.
- The `TypeError` raised when a group of an object's `__dict__` is not iterable, or is not a mapping (src/pyPolarionCli/cmd_search.py:74-77), is not modelled. In `Value` every group is a mapping from keys to values.
- Exceptions raised by `searchWorkitemFullItem` and `searchWorkitem` (src/pyPolarionCli/cmd_search.py:262, 268, 274) are not modelled. These calls sit in the `else` branch, outside the `try`, so such an exception would escape `_execute`. `Project` models the calls as total functions.
- An `OSError` from `open(file_path, 'w')` (src/pyPolarionCli/cmd_search.py:283), for example because the output folder does not exist, is not modelled. The file system is not part of the model.
- Which atoms `json.dumps` renders is not computed from their contents. `Other(renderable)` carries the answer as given, because the flattener never looks inside such a value.
- CPython's recursion limit is not modelled. The flattener recurses once per level of nesting, so a structure nested several hundred objects deep raises `RecursionError` in the program. The model walks any finite depth.
- `datetime.isoformat` is the uninterpreted parameter `iso`. Its text format is not modelled.
- `__dict__` and `hasattr` probing are replaced by the closed `Value` datatype. Dafny values are finite and acyclic, so cyclic object graphs cannot be expressed. The probing order matters only when a value fits several branches (say, a date that also had a `__dict__`), and no closed-datatype value does.
- Aliasing is not modelled. Nested dicts and lists are values, so the model cannot show the mutable sharing between a stored object and its source. In the default mode, the list under `results` is built as a local sequence and stored once, not appended to inside the dict; the final document is the same.
- `CmdSearch.ParseGroups`: on the raising path, the contract does not say which entries were already written to the dict. Every caller drops that dict once the exception is raised.
